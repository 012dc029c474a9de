/** The operational-transformation engine (pset4/doc_ops.hh, pset4/doc_ops.cc; the browser's copy
    is pset4/static/editor.js:71-104). */
module DocOps {
  import opened Options

  datatype Op = Insert(pos: nat, text: string) | Delete(pos: nat, len: nat)

  /** Positions and lengths outside the text are clamped. */
  function Apply(text: string, op: Op): string {
    match op
    case Insert(p, t) =>
      if t == "" then text
      else var pos := Min(p, |text|); text[..pos] + t + text[pos..]
    case Delete(p, l) =>
      if l == 0 then text
      else var pos := Min(p, |text|); var len := Min(l, |text| - pos); text[..pos] + text[pos + len..]
  }

  function ApplyAll(text: string, ops: seq<Op>): string
    decreases |ops|
  {
    if ops == [] then text else ApplyAll(Apply(text, ops[0]), ops[1..])
  }

  /** `a`, adjusted for `b` having been applied first. */
  function Transform(a: Op, b: Op): Op {
    match (a, b)
    case (Insert(pa, ta), Insert(pb, tb)) =>
      if pb <= pa then Insert(pa + |tb|, ta) else a
    case (Insert(pa, ta), Delete(pb, lb)) =>
      if pa <= pb then a
      else if pa >= pb + lb then Insert(pa - lb, ta)
      else Insert(0, "")
    case (Delete(pa, la), Insert(pb, tb)) =>
      if pb >= pa + la then a
      else if pb <= pa then Delete(pa + |tb|, la)
      else Delete(pa, la + |tb|)
    case (Delete(pa, la), Delete(pb, lb)) =>
      if pa + la <= pb then a
      else if pa >= pb + lb then Delete(pa - lb, la)
      else if pa >= pb && pa + la <= pb + lb then Delete(0, 0)
      else if pa <= pb && pa + la >= pb + lb then Delete(pa, la - lb)
      else if pa < pb then Delete(pa, pb - pa)
      else Delete(pb, pa + la - pb - lb)
  }

  function TransformAll(a: Op, committed: seq<Op>): Op
    decreases |committed|
  {
    if committed == [] then a else TransformAll(Transform(a, committed[0]), committed[1..])
  }

  /** The committed operations, carried past `a` one after the other. */
  function Carry(a: Op, committed: seq<Op>): seq<Op>
    decreases |committed|
  {
    if committed == [] then []
    else [Transform(committed[0], a)] + Carry(Transform(a, committed[0]), committed[1..])
  }

  /** `transform_seq` */
  method TransformSeq(a: Op, committed: seq<Op>) returns (r: Op)
    ensures r == TransformAll(a, committed)
  {
    r := a;
    for i := 0 to |committed|
      invariant TransformAll(a, committed) == TransformAll(r, committed[i..])
    {
      assert committed[i..][1..] == committed[i + 1..];
      r := Transform(r, committed[i]);
    }
  }

  /** A text edited in place by `apply_op`. */
  class TextBuffer {
    var text: string

    constructor ()
      ensures text == ""
    {
      text := "";
    }

    method InsertAt(pos: nat, t: string)
      requires pos <= |text|
      modifies this
      ensures text == old(text)[..pos] + t + old(text)[pos..]
    {
      text := text[..pos] + t + text[pos..];
    }

    method EraseAt(pos: nat, len: nat)
      requires pos + len <= |text|
      modifies this
      ensures text == old(text)[..pos] + old(text)[pos + len..]
    {
      text := text[..pos] + text[pos + len..];
    }

    method ApplyOp(op: Op)
      modifies this
      ensures text == Apply(old(text), op)
    {
      match op {
        case Insert(p, t) =>
          if t == "" { return; }
          InsertAt(Min(p, |text|), t);
        case Delete(p, l) =>
          if l == 0 { return; }
          var pos := Min(p, |text|);
          EraseAt(pos, Min(l, |text| - pos));
      }
    }
  }
}
