/**
 * The BEU register window, modelled as an image of symbolic registers and
 * the sequence of bus writes that produced it.
 *
 * Register offsets and bit masks live in a header that is not part of this
 * model; they are kept symbolic. Every register is a distinct constructor of
 * `Reg`, so two different names never alias.
 */
module Registers {

  /** Index of a source slot: 0, 1 or 2 for source 1, 2 and 3. */
  type Slot = i: int | 0 <= i < 3

  /** The per-slot source registers; `Src(f, i)` stands for `f + SRC<i+1>_BASE`. */
  datatype SrcField = BSSZR | BSMWR | BSAYR | BSACR | BSAAR | BSIFR

  datatype Reg =
    | Src(field: SrcField, slot: Slot)  // per-source size, stride, addresses, format
    | BLOCR(slot: Slot)                 // BLOCR1 + 4 * slot: overlay position
    | BESTR | BSTAR | BBRSTR | BRCNTR | BRCHR | BEIER | BEVTR
    | BSWPR | BBLCR0 | BBLCR1 | BPROCR | BMWCR0 | BPCCR0
    | BDMWR | BDAYR | BDACR | BAFXR | BPKFR

  /**
   * The bit masks the driver ORs into registers. Their values come from the
   * register header and are left unknown: a proof may not rely on them.
   */
  datatype Bits = Bits(
    beivk: bv32, chon1: bv32, chon2: bv32, chon3: bv32,  // BESTR_*
    in1te: bv32,                                        // BSIFR1_IN1TE
    ry: bv32, te: bv32,                                 // BPKFR_RY, BPKFR_TE
    outputMem: bv32)                                    // BBLCR1_OUTPUT_MEM

  /** One 32-bit bus write. */
  datatype Write = Write(reg: Reg, value: bv32)

  /** A register image: every register has a 32-bit value. */
  type Image = Reg -> bv32

  /** The image after one write: its register takes its value, no other changes. */
  function Update(img: Image, w: Write): Image
  {
    (r: Reg) => if r == w.reg then w.value else img(r)
  }

  /** A register value with the bits of `mask` set, as the driver's `|=` leaves it. */
  function SetBits(v: bv32, mask: bv32): bv32
  {
    v | mask
  }

  /** Setting two masks one after the other sets their union. */
  lemma SetBitsTwice(v: bv32, a: bv32, b: bv32)
    ensures SetBits(SetBits(v, a), b) == SetBits(v, a | b)
  {
    calc {
      SetBits(SetBits(v, a), b);
      (v | a) | b;
      { OrAssoc(v, a, b); }
      v | (a | b);
      SetBits(v, a | b);
    }
  }

  /** Two masks set one after the other set their union. */
  lemma SetBitsNest(v: bv32, a: bv32, b: bv32)
    ensures SetBits(SetBits(v, a), b) == SetBits(v, SetBits(a, b))
  {
    SetBitsTwice(v, a, b);
  }

  /** Bitwise or is associative. */
  lemma OrAssoc(v: bv32, a: bv32, b: bv32)
    ensures (v | a) | b == v | (a | b)
  {
  }

  /** The registers a trace writes to. */
  function Written(t: seq<Write>): set<Reg>
  {
    set w | w in t :: w.reg
  }

  /** Writing one more register adds exactly that register. */
  lemma WrittenSnoc(t: seq<Write>, w: Write)
    ensures Written(t + [w]) == Written(t) + {w.reg}
  {
    forall r | r in Written(t) ensures r in Written(t + [w]) {
      var v :| v in t && v.reg == r;
      assert v in t + [w];
    }
    assert w in t + [w];
  }

  /** The registers of two traces run one after the other. */
  lemma WrittenAppend(a: seq<Write>, b: seq<Write>)
    ensures Written(a + b) == Written(a) + Written(b)
  {
    forall r | r in Written(a + b) ensures r in Written(a) + Written(b) {
      var v :| v in a + b && v.reg == r;
      if v in a { assert r in Written(a); } else { assert v in b; assert r in Written(b); }
    }
    forall r | r in Written(a) + Written(b) ensures r in Written(a + b) {
      if r in Written(a) {
        var v :| v in a && v.reg == r;
        assert v in a + b;
      } else {
        var v :| v in b && v.reg == r;
        assert v in a + b;
      }
    }
  }

  /** The image after the writes of `t`, in order, starting from `img`. */
  function Apply(img: Image, t: seq<Write>): Image
  {
    if t == [] then img
    else
      var w := t[|t| - 1];
      Update(Apply(img, t[..|t| - 1]), w)
  }

  /** One more write updates exactly its register. */
  lemma ApplySnoc(img: Image, t: seq<Write>, w: Write)
    ensures Apply(img, t + [w]) == Update(Apply(img, t), w)
  {
    assert (t + [w])[..|t|] == t;
  }

  /** Running a one-write trace is making that write. */
  lemma ApplySingle(img: Image, w: Write)
    ensures Apply(img, [w]) == Update(img, w)
  {
    assert [w][..0] == [];
  }

  /** Running two traces one after the other is running their concatenation. */
  lemma {:induction false} ApplyAppend(img: Image, a: seq<Write>, b: seq<Write>)
    ensures Apply(img, a + b) == Apply(Apply(img, a), b)
    decreases |b|
  {
    if b == [] {
      assert a + b == a;
    } else {
      var b', w := b[..|b| - 1], b[|b| - 1];
      assert b == b' + [w];
      assert a + b == (a + b') + [w];
      ApplySnoc(img, a + b', w);
      ApplyAppend(img, a, b');
      ApplySnoc(Apply(img, a), b', w);
    }
  }

  /** A register no write of `t` names keeps its value. */
  lemma {:induction false} ApplyUnwritten(img: Image, t: seq<Write>, r: Reg)
    requires r !in Written(t)
    ensures Apply(img, t)(r) == img(r)
    decreases |t|
  {
    if t != [] {
      var t', w := t[..|t| - 1], t[|t| - 1];
      assert Written(t') <= Written(t) by {
        forall x | x in Written(t') ensures x in Written(t) {
          var v :| v in t' && v.reg == x;
          assert v in t;
        }
      }
      assert w in t;
      ApplyUnwritten(img, t', r);
    }
  }

  /** Five writes to other registers leave a register as it was. */
  lemma FiveFrame(img: Image, a: Write, b: Write, c: Write, d: Write, e: Write, r: Reg)
    requires r != a.reg && r != b.reg && r != c.reg && r != d.reg && r != e.reg
    ensures Update(Update(Update(Update(Update(img, a), b), c), d), e)(r) == img(r)
  {
  }

  /** Two writes to other registers leave a register as it was. */
  lemma TwoFrame(img: Image, a: Write, b: Write, r: Reg)
    requires r != a.reg && r != b.reg
    ensures Update(Update(img, a), b)(r) == img(r)
  {
  }

  /** Four writes made one at a time are the four-write trace. */
  lemma StepFour(log: seq<Write>, img: Image, a: Write, b: Write, c: Write, d: Write)
    ensures log + [a] + [b] + [c] + [d] == log + [a, b, c, d]
    ensures Apply(img, [a, b, c, d]) == Update(Update(Update(Update(img, a), b), c), d)
  {
    assert [a] == [] + [a];
    ApplySnoc(img, [], a);
    assert [a, b] == [a] + [b];
    ApplySnoc(img, [a], b);
    assert [a, b, c] == [a, b] + [c];
    ApplySnoc(img, [a, b], c);
    assert [a, b, c, d] == [a, b, c] + [d];
    ApplySnoc(img, [a, b, c], d);
  }

  /** Five writes made one at a time are the five-write trace. */
  lemma StepFive(log: seq<Write>, img: Image, a: Write, b: Write, c: Write, d: Write, e: Write)
    ensures log + [a] + [b] + [c] + [d] + [e] == log + [a, b, c, d, e]
    ensures Apply(img, [a, b, c, d, e]) == Update(Update(Update(Update(Update(img, a), b), c), d), e)
  {
    StepFour(log, img, a, b, c, d);
    assert [a, b, c, d, e] == [a, b, c, d] + [e];
    ApplySnoc(img, [a, b, c, d], e);
  }

  /** Four writes, then two more, one at a time. */
  lemma StepSix(log: seq<Write>, img: Image, a: Write, b: Write, c: Write, d: Write, e: Write, f: Write)
    ensures log + [a] + [b] + [c] + [d] + [e] + [f] == log + ([a, b, c, d] + [e] + [f])
    ensures Update(Update(Update(Update(Update(Update(img, a), b), c), d), e), f)
      == Apply(img, [a, b, c, d] + [e] + [f])
  {
    StepFour(log, img, a, b, c, d);
    ApplySnoc(img, [a, b, c, d], e);
    ApplySnoc(img, [a, b, c, d] + [e], f);
  }

  /** A trace, then four writes made one at a time. */
  lemma StepTail(log: seq<Write>, img: Image, p: seq<Write>, a: Write, b: Write, c: Write, d: Write)
    ensures log + p + [a] + [b] + [c] + [d] == log + (p + [a] + [b] + [c] + [d])
    ensures Update(Update(Update(Update(Apply(img, p), a), b), c), d) == Apply(img, p + [a] + [b] + [c] + [d])
  {
    assert log + p + [a] == log + (p + [a]);
    assert log + p + [a] + [b] == log + (p + [a] + [b]);
    assert log + p + [a] + [b] + [c] == log + (p + [a] + [b] + [c]);
    ApplySnoc(img, p, a);
    ApplySnoc(img, p + [a], b);
    ApplySnoc(img, p + [a] + [b], c);
    ApplySnoc(img, p + [a] + [b] + [c], d);
  }

  /** Two traces, logged and run one after the other. */
  lemma ChainTwo(log: seq<Write>, img: Image, a: seq<Write>, b: seq<Write>)
    ensures log + a + b == log + (a + b)
    ensures Apply(Apply(img, a), b) == Apply(img, a + b)
  {
    ApplyAppend(img, a, b);
  }

  /** Three traces, logged and run one after the other. */
  lemma ChainThree(log: seq<Write>, img: Image, a: seq<Write>, b: seq<Write>, c: seq<Write>)
    ensures log + a + b + c == log + (a + b + c)
    ensures Apply(Apply(Apply(img, a), b), c) == Apply(img, a + b + c)
  {
    assert log + a + b + c == log + (a + b + c) by {
      assert log + a + b == log + (a + b);
      assert log + a + b + c == log + (a + b) + c;
    }
    assert Apply(Apply(Apply(img, a), b), c) == Apply(img, a + b + c) by {
      ApplyAppend(img, a, b);
      ApplyAppend(img, a + b, c);
    }
  }

  /** Four traces, logged and run one after the other. */
  lemma ChainFour(log: seq<Write>, img: Image, a: seq<Write>, b: seq<Write>, c: seq<Write>, d: seq<Write>)
    ensures log + a + b + c + d == log + (a + b + c + d)
    ensures Apply(Apply(Apply(Apply(img, a), b), c), d) == Apply(img, a + b + c + d)
  {
    assert log + a + b + c + d == log + (a + b + c + d) by {
      ChainThree(log, img, a, b, c);
      assert log + a + b + c + d == log + (a + b + c) + d;
    }
    assert Apply(Apply(Apply(Apply(img, a), b), c), d) == Apply(img, a + b + c + d) by {
      ChainThree(log, img, a, b, c);
      ApplyAppend(img, a + b + c, d);
    }
  }

  /** Five traces, logged and run one after the other. */
  lemma ChainFive(log: seq<Write>, img: Image, a: seq<Write>, b: seq<Write>, c: seq<Write>, d: seq<Write>, e: seq<Write>)
    ensures log + a + b + c + d + e == log + (a + b + c + d + e)
    ensures Apply(Apply(Apply(Apply(Apply(img, a), b), c), d), e) == Apply(img, a + b + c + d + e)
  {
    assert log + a + b + c + d + e == log + (a + b + c + d + e) by {
      ChainFour(log, img, a, b, c, d);
      assert log + a + b + c + d + e == log + (a + b + c + d) + e;
    }
    assert Apply(Apply(Apply(Apply(Apply(img, a), b), c), d), e) == Apply(img, a + b + c + d + e) by {
      ChainFour(log, img, a, b, c, d);
      ApplyAppend(img, a + b + c + d, e);
    }
  }
}
