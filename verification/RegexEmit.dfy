/** The code generator of regcomp: in the first pass bytes are only counted, in
    the second they are put into the program. */
module RegexEmit {
  import opened Common
  import opened RegexCode

  const MAX_SIZE: nat := 32767

  /** An operator in front of code already there. */
  function Inserted(code: seq<byte>, p: nat, op: byte): seq<byte>
    requires p <= |code|
  {
    code[..p] + [op, 0, 0] + code[p..]
  }

  /** What regtail does to the last node of a chain, as long as the offset fits. */
  function Tailed(code: seq<byte>, t: nat, val: nat): (code': seq<byte>)
    ensures |code'| == |code|
  {
    if t + 3 > |code| then code
    else
      var off := if code[t] == BACK then t - val else val - t;
      if 0 <= off < REACH then Patch(code, t, off) else code
  }

  class Emitter {
    const emit: bool
    const program: array<byte>
    var regcode: nat
    var regsize: nat

    constructor (emit: bool, size: nat)
      requires size < MAX_SIZE
      ensures Valid() && fresh(program) && this.emit == emit && program.Length == size && regcode == 0 && regsize == 0
    {
      this.emit, regcode, regsize := emit, 0, 0;
      program := new byte[size](_ => 0);
    }

    ghost predicate Valid()
      reads this
    {
      regcode <= program.Length && program.Length < MAX_SIZE
    }

    /** The code so far. */
    ghost function Code(): (code: seq<byte>)
      requires Valid()
      reads this, program
      ensures |code| == regcode
    {
      program[..regcode]
    }

    /** `bytes` more were counted or put. */
    twostate predicate Added(bytes: seq<byte>)
      reads this, program
    {
      && Valid() && old(Valid())
      && (emit ==> Code() == old(Code()) + bytes && regsize == old(regsize))
      && (!emit ==> Code() == old(Code()) && regsize == old(regsize) + |bytes|)
    }

    method RegC(b: byte)
      requires Valid() && (emit ==> regcode < program.Length)
      modifies this, program
      ensures Added([b])
    {
      if emit {
        program[regcode] := b;
        regcode := regcode + 1;
      } else {
        regsize := regsize + 1;
      }
    }

    method RegNode(op: byte) returns (ret: nat)
      requires Valid() && (emit ==> regcode + 3 <= program.Length)
      modifies this, program
      ensures Added([op, 0, 0]) && ret == old(regcode)
    {
      ret := regcode;
      if emit {
        program[regcode] := op;
        program[regcode + 1] := 0;
        program[regcode + 2] := 0;
        regcode := regcode + 3;
      } else {
        regsize := regsize + 3;
      }
    }

    method RegInsert(op: byte, opnd: nat)
      requires Valid() && (emit ==> regcode + 3 <= program.Length && opnd <= regcode)
      modifies this, program
      ensures Valid() && (emit ==> Code() == Inserted(old(Code()), opnd, op) && regsize == old(regsize))
      ensures !emit ==> Code() == old(Code()) && regsize == old(regsize) + 3
    {
      if !emit {
        regsize := regsize + 3;
        return;
      }
      ghost var was := Code();
      MoveUp(opnd);
      program[opnd] := op;
      program[opnd + 1] := 0;
      program[opnd + 2] := 0;
      regcode := regcode + 3;
      assert program[..regcode] == was[..opnd] + [op, 0, 0] + was[opnd..];
    }

    /** Everything from `opnd` on moves up by three bytes. */
    method MoveUp(opnd: nat)
      requires Valid() && regcode + 3 <= program.Length && opnd <= regcode
      modifies program
      ensures program[..opnd] == old(program[..opnd]) && program[opnd + 3..regcode + 3] == old(program[opnd..regcode])
    {
      ghost var was := program[..];
      var src := regcode;
      while src > opnd
        invariant opnd <= src <= regcode
        invariant forall k :: 0 <= k < src ==> program[k] == was[k]
        invariant forall k :: src + 3 <= k < regcode + 3 ==> program[k] == was[k - 3]
      {
        src := src - 1;
        program[src + 3] := program[src];
      }
    }

    /** regtail: the last node of the chain from `p`, which is `t`, is made to
        point to `val`. */
    method RegTail(p: nat, val: nat, ghost t: nat)
      requires Valid() && (emit ==> p <= t && t + 3 <= regcode && Path(Code(), p, t) && RegNext(Code(), t) == t)
      requires emit ==> if Code()[t] == BACK then 0 <= t - val < REACH else 0 <= val - t < REACH
      modifies this, program
      ensures Valid() && regsize == old(regsize) && (emit ==> Code() == Tailed(old(Code()), t, val))
      ensures !emit ==> Code() == old(Code())
    {
      if !emit {
        return;
      }
      var scan := p;
      while true
        invariant p <= scan <= t && Path(Code(), scan, t) && Code() == old(Code()) && regcode == old(regcode)
        invariant regsize == old(regsize)
        decreases t - scan
      {
        assert Code()[scan..scan + 3] == program[scan..scan + 3] by { PrefixSlice(scan); }
        var off := program[scan + 1] as int * 256 + program[scan + 2];
        if off == 0 {
          break;
        }
        assert off == Offset(Code(), scan);
        scan := if program[scan] == BACK then scan - off else scan + off;
      }
      var offset := if program[scan] == BACK then scan - val else val - scan;
      program[scan + 1] := offset / 256;
      program[scan + 2] := offset % 256;
    }

    /** regoptail: the same for the operand of a BRANCH. */
    method RegOpTail(p: nat, val: nat, ghost t: nat)
      requires Valid()
      requires (emit ==>
        p + 3 <= t && t + 3 <= regcode && Code()[p] == BRANCH && Path(Code(), p + 3, t) && RegNext(Code(), t) == t)
      requires emit ==> if Code()[t] == BACK then 0 <= t - val < REACH else 0 <= val - t < REACH
      modifies this, program
      ensures Valid() && regsize == old(regsize) && (emit ==> Code() == Tailed(old(Code()), t, val))
      ensures !emit ==> Code() == old(Code())
    {
      if !emit || program[p] != BRANCH {
        return;
      }
      RegTail(p + 3, val, t);
    }

    /** regnext */
    method Next(p: nat) returns (next: nat)
      requires Valid() && p + 3 <= regcode && RegNext(Code(), p) >= 0
      ensures next == RegNext(Code(), p)
    {
      var off := program[p + 1] as int * 256 + program[p + 2];
      next := if program[p] == BACK then p - off else p + off;
    }

    lemma PrefixSlice(p: nat)
      requires Valid() && p + 3 <= regcode
      ensures Code()[p..p + 3] == program[p..p + 3]
    {
    }
  }
}
