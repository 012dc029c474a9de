/** Text forms: operations as stored values (pset4/doc_ops.cc:13-58), operation keys
    (pset4/doc_state.cc:7-53), and the browser's text difference (pset4/static/editor.js:106-129). */
module Codec {
  import opened Options
  import opened DocOps

  /** 2^64, the range of size_t and uint64_t. */
  const WORD64: nat := 0x1_0000_0000_0000_0000

  // ----- decimal numbers -----

  predicate IsDigit(c: char) {
    '0' <= c <= '9'
  }

  predicate AllDigits(s: string) {
    forall i :: 0 <= i < |s| ==> IsDigit(s[i])
  }

  function DigitOf(c: char): nat
    requires IsDigit(c)
  {
    c as int - '0' as int
  }

  function CharOf(d: nat): (c: char)
    requires d < 10
    ensures IsDigit(c) && DigitOf(c) == d
  {
    ('0' as int + d) as char
  }

  /** The number a run of digits stands for. */
  function Value(s: string): nat
    requires AllDigits(s)
  {
    if s == "" then 0 else Value(s[..|s| - 1]) * 10 + DigitOf(s[|s| - 1])
  }

  /** `std::to_string` */
  function Decimal(n: nat): (s: string)
    ensures s != "" && AllDigits(s)
  {
    if n < 10 then [CharOf(n)] else Decimal(n / 10) + [CharOf(n % 10)]
  }

  lemma {:induction false} DecimalValue(n: nat)
    ensures Value(Decimal(n)) == n
  {
    if n >= 10 {
      DecimalValue(n / 10);
      assert Decimal(n)[..|Decimal(n)| - 1] == Decimal(n / 10);
    } else {
      assert Decimal(n)[..0] == "";
    }
  }

  // ----- reading numbers back -----

  /** How many digits `s` starts with. */
  function DigitRun(s: string): (n: nat)
    ensures n <= |s| && AllDigits(s[..n]) && (n < |s| ==> !IsDigit(s[n]))
  {
    if s == "" || !IsDigit(s[0]) then 0 else
      var n := DigitRun(s[1..]);
      assert s[..n + 1] == [s[0]] + s[1..][..n];
      n + 1
  }

  function SkipSpace(s: string): string {
    if s != "" && s[0] == ' ' then s[1..] else s
  }

  /** `read_uint`: a non-empty run of digits, read modulo 2^64, and one space after it. */
  function ReadUint(s: string): Option<(nat, string)> {
    var n := DigitRun(s);
    if n == 0 then None else Some((Value(s[..n]) % WORD64, SkipSpace(s[n..])))
  }

  lemma {:induction false} RunStops(s: string, n: nat)
    requires n <= |s| && AllDigits(s[..n]) && (n < |s| ==> !IsDigit(s[n]))
    ensures DigitRun(s) == n
    decreases n
  {
    if n > 0 {
      assert s[..n][0] == s[0];
      var rest := s[1..][..n - 1];
      forall i | 0 <= i < |rest| ensures IsDigit(rest[i]) { assert rest[i] == s[..n][i + 1]; }
      RunStops(s[1..], n - 1);
    }
  }

  lemma WrapStep(v: nat, d: nat)
    ensures ((v % WORD64) * 10 + d) % WORD64 == (v * 10 + d) % WORD64
  {
    var q := v / WORD64;
    assert v == q * WORD64 + v % WORD64;
    var x, y := (v % WORD64) * 10 + d, v * 10 + d;
    assert y == x + (10 * q) * WORD64;
    var p := x / WORD64;
    assert x == p * WORD64 + x % WORD64;
    assert y == (p + 10 * q) * WORD64 + x % WORD64;
    ModIs(y, p + 10 * q, x % WORD64);
  }

  lemma ModIs(y: nat, q: nat, r: nat)
    requires r < WORD64 && y == q * WORD64 + r
    ensures y % WORD64 == r
  {
  }

  method ReadUintLoop(s: string) returns (r: Option<(nat, string)>)
    ensures r == ReadUint(s)
  {
    var v: nat, i: nat := 0, 0;
    assert s[..0] == "";
    while i < |s| && IsDigit(s[i])
      invariant i <= |s| && AllDigits(s[..i]) && v == Value(s[..i]) % WORD64
    {
      assert s[..i + 1][..i] == s[..i];
      WrapStep(Value(s[..i]), DigitOf(s[i]));
      v := (v * 10 + DigitOf(s[i])) % WORD64;
      i := i + 1;
    }
    RunStops(s, i);
    if i == 0 { return None; }
    r := Some((v, SkipSpace(s[i..])));
  }

  // ----- operations -----

  function Serialize(op: Op): string {
    match op
    case Insert(pos, text) => ['I', ' '] + (Decimal(pos) + ([' '] + text))
    case Delete(pos, len) => ['D', ' '] + (Decimal(pos) + ([' '] + Decimal(len)))
  }

  /** None stands for std::invalid_argument. */
  function Deserialize(s: string): Option<Op> {
    if |s| < 2 then None
    else if s[0] == 'I' then
      match ReadUint(s[2..])
      case None => None
      case Some((pos, rest)) => Some(Insert(pos, rest))
    else if s[0] == 'D' then
      match ReadUint(s[2..])
      case None => None
      case Some((pos, rest)) =>
        match ReadUint(rest)
        case None => None
        case Some((len, _)) => Some(Delete(pos, len))
    else None
  }

  method DeserializeOp(s: string) returns (r: Option<Op>)
    ensures r == Deserialize(s)
  {
    if |s| < 2 { return None; }
    if s[0] == 'I' {
      var pos := ReadUintLoop(s[2..]);
      if pos.None? { return None; }
      return Some(Insert(pos.value.0, pos.value.1));
    } else if s[0] == 'D' {
      var pos := ReadUintLoop(s[2..]);
      if pos.None? { return None; }
      var len := ReadUintLoop(pos.value.1);
      if len.None? { return None; }
      return Some(Delete(pos.value.0, len.value.0));
    }
    r := None;
  }

  /** Positions and lengths fit in size_t. */
  predicate Storable(op: Op) {
    op.pos < WORD64 && (op.Delete? ==> op.len < WORD64)
  }

  /** What is left of an operation whose numbers do not fit. */
  function Wrapped(op: Op): Op {
    match op
    case Insert(pos, text) => Insert(pos % WORD64, text)
    case Delete(pos, len) => Delete(pos % WORD64, len % WORD64)
  }

  /** Some digits, and something after them that is not one. */
  predicate NumberThen(s: string, digits: string, rest: string) {
    s == digits + rest && digits != "" && AllDigits(digits) && (rest == "" || !IsDigit(rest[0]))
  }

  /** A number is read modulo 2^64, and one space after it is eaten. */
  lemma ReadsNumber(s: string, digits: string, rest: string)
    requires NumberThen(s, digits, rest)
    ensures ReadUint(s) == Some((Value(digits) % WORD64, SkipSpace(rest)))
  {
    var k := |digits|;
    assert s[..k] == digits && s[k..] == rest;
    RunStops(s, k);
  }

  /** Nothing but a number is read. */
  lemma ReadsOnlyNumbers(s: string)
    ensures ReadUint(s).Some? ==> NumberThen(s, s[..DigitRun(s)], s[DigitRun(s)..])
  {
  }

  lemma AfterTag(tag: char, body: string)
    ensures var s := [tag, ' '] + body; |s| >= 2 && s[0] == tag && s[2..] == body
  {
  }

  lemma AfterSpace(text: string)
    ensures SkipSpace([' '] + text) == text
  {
  }

  /** Storing an operation and reading it back, whatever its text. */
  lemma ReadBack(op: Op)
    ensures Deserialize(Serialize(op)) == Some(Wrapped(op))
  {
    match op
    case Insert(pos, text) =>
      DecimalValue(pos);
      ReadsNumber(Decimal(pos) + ([' '] + text), Decimal(pos), [' '] + text);
      AfterSpace(text);
      AfterTag('I', Decimal(pos) + ([' '] + text));
    case Delete(pos, len) =>
      DecimalValue(pos);
      DecimalValue(len);
      ReadsNumber(Decimal(pos) + ([' '] + Decimal(len)), Decimal(pos), [' '] + Decimal(len));
      AfterSpace(Decimal(len));
      assert Decimal(len) + "" == Decimal(len);
      ReadsNumber(Decimal(len), Decimal(len), "");
      AfterTag('D', Decimal(pos) + ([' '] + Decimal(len)));
  }

  /** An operation survives storing exactly if its position and its length fit in 64 bits. */
  lemma RoundTrip(op: Op)
    ensures Deserialize(Serialize(op)) == Some(op) <==> Storable(op)
  {
    ReadBack(op);
    FitsExactly(op);
  }

  lemma FitsExactly(op: Op)
    ensures Wrapped(op) == op <==> Storable(op)
  {
  }

  /** What `s` says: a tag, any second character, and one or two numbers. A space after a number
      belongs to it, the text of an insertion is all that follows, and what follows a deletion's
      length is ignored. */
  ghost predicate Says(s: string, op: Op) {
    |s| >= 2 &&
    match op
    case Insert(pos, text) =>
      s[0] == 'I' && exists digits, rest :: NumberThen(s[2..], digits, rest) && pos == Value(digits) % WORD64 && text == SkipSpace(rest)
    case Delete(pos, len) =>
      s[0] == 'D' && exists digits, rest, more, tail :: SaysDelete(s[2..], pos, len, digits, rest, more, tail)
  }

  predicate SaysDelete(s: string, pos: nat, len: nat, digits: string, rest: string, more: string, tail: string) {
    && NumberThen(s, digits, rest) && pos == Value(digits) % WORD64
    && NumberThen(SkipSpace(rest), more, tail) && len == Value(more) % WORD64
  }

  /** `deserialize` accepts exactly the strings that say something, and reads what they say. */
  lemma DeserializeExactly(s: string, op: Op)
    ensures Deserialize(s) == Some(op) <==> Says(s, op)
  {
    if Deserialize(s) == Some(op) {
      var body := s[2..];
      var n := DigitRun(body);
      ReadsOnlyNumbers(body);
      var digits, rest := body[..n], body[n..];
      if op.Delete? {
        var after := SkipSpace(rest);
        ReadsOnlyNumbers(after);
        assert SaysDelete(body, op.pos, op.len, digits, rest, after[..DigitRun(after)], after[DigitRun(after)..]);
      } else {
        assert NumberThen(body, digits, rest);
      }
    }
    if Says(s, op) { SaidIsRead(s, op); }
  }

  lemma SaidIsRead(s: string, op: Op)
    requires Says(s, op)
    ensures Deserialize(s) == Some(op)
  {
    match op
    case Insert(pos, text) =>
      var digits, rest :| NumberThen(s[2..], digits, rest) && pos == Value(digits) % WORD64 && text == SkipSpace(rest);
      ReadsNumber(s[2..], digits, rest);
    case Delete(pos, len) =>
      var digits, rest, more, tail :| SaysDelete(s[2..], pos, len, digits, rest, more, tail);
      ReadsNumber(s[2..], digits, rest);
      ReadsNumber(SkipSpace(rest), more, tail);
  }

  // ----- operation keys -----

  function OpPrefix(doc: string): string {
    "doc/" + doc + "/op/"
  }

  function OpKey(doc: string, client: nat, seqNo: nat): string {
    OpPrefix(doc) + (Decimal(client) + "/" + Decimal(seqNo))
  }

  /** The position of the first slash, or the length. */
  function FirstSlash(s: string): (n: nat)
    ensures n <= |s| && (n < |s| ==> s[n] == '/') && forall i :: 0 <= i < n ==> s[i] != '/'
  {
    if s == "" || s[0] == '/' then 0 else 1 + FirstSlash(s[1..])
  }

  /** `std::from_chars` on a whole string: digits only, and no overflow. */
  function FromChars(s: string): Option<nat> {
    if s != "" && AllDigits(s) && Value(s) < WORD64 then Some(Value(s)) else None
  }

  /** `parse_op_suffix` */
  function ParseOpSuffix(s: string): Option<(nat, nat)> {
    var slash := FirstSlash(s);
    if slash == |s| || slash == 0 || slash + 1 >= |s| then None
    else
      var a, b := s[..slash], s[slash + 1..];
      if FirstSlash(b) < |b| then None
      else
        match (FromChars(a), FromChars(b))
        case (Some(client), Some(seqNo)) => Some((client, seqNo))
        case _ => None
  }

  lemma SlashIs(s: string, n: nat)
    requires n <= |s| && (n < |s| ==> s[n] == '/') && forall i :: 0 <= i < n ==> s[i] != '/'
    ensures FirstSlash(s) == n
  {
  }

  /** A suffix parses to a pair of numbers exactly if it is two runs of digits with a slash between
      them and both numbers fit in 64 bits. */
  lemma ParseExactly(s: string, client: nat, seqNo: nat)
    ensures ParseOpSuffix(s) == Some((client, seqNo)) <==>
            exists a, b :: SuffixOf(s, a, b) && Value(a) == client < WORD64 && Value(b) == seqNo < WORD64
  {
    if ParseOpSuffix(s) == Some((client, seqNo)) {
      var slash := FirstSlash(s);
      assert s == s[..slash] + ("/" + s[slash + 1..]);
      assert SuffixOf(s, s[..slash], s[slash + 1..]);
    }
    if a, b :| SuffixOf(s, a, b) && Value(a) == client < WORD64 && Value(b) == seqNo < WORD64 {
      SuffixParses(s, a, b);
    }
  }

  predicate SuffixOf(s: string, a: string, b: string) {
    s == a + ("/" + b) && a != "" && b != "" && AllDigits(a) && AllDigits(b)
  }

  lemma SuffixParses(s: string, a: string, b: string)
    requires SuffixOf(s, a, b)
    ensures ParseOpSuffix(s) == if Value(a) < WORD64 && Value(b) < WORD64 then Some((Value(a), Value(b))) else None
  {
    assert forall i :: 0 <= i < |a| ==> s[i] == a[i] && IsDigit(a[i]);
    assert forall i :: 0 <= i < |b| ==> IsDigit(b[i]);
    SlashIs(s, |a|);
    SlashIs(b, |b|);
    assert s[..|a|] == a && s[|a| + 1..] == b;
  }

  /** Parsing undoes writing, exactly for numbers that fit in 64 bits. */
  lemma KeyRoundTrip(doc: string, client: nat, seqNo: nat)
    ensures var k := OpKey(doc, client, seqNo);
            && OpPrefix(doc) <= k
            && (ParseOpSuffix(k[|OpPrefix(doc)|..]) == Some((client, seqNo)) <==> client < WORD64 && seqNo < WORD64)
  {
    var a, b := Decimal(client), Decimal(seqNo);
    assert OpKey(doc, client, seqNo)[|OpPrefix(doc)|..] == a + ("/" + b) == a + "/" + b;
    SuffixParses(a + ("/" + b), a, b);
    DecimalValue(client);
    DecimalValue(seqNo);
  }

  /** The key holds an operation of document `doc`. */
  predicate Belongs(key: string, doc: string) {
    |key| > |OpPrefix(doc)| && OpPrefix(doc) <= key && ParseOpSuffix(key[|OpPrefix(doc)|..]).Some?
  }

  /** The two slashes of an operation suffix are its own: a document id ends where the third
      slash from the right begins. */
  lemma SuffixSlashes(s: string) returns (m: nat)
    requires ParseOpSuffix(s).Some?
    ensures 0 < m < |s| - 1 && s[m] == '/' && forall i :: 0 <= i < |s| && i != m ==> s[i] != '/'
  {
    m := FirstSlash(s);
    var b := s[m + 1..];
    assert FirstSlash(b) == |b|;
    forall i | m < i < |s| ensures s[i] != '/' { assert s[i] == b[i - m - 1]; }
  }

  /** No key holds an operation of two documents, whatever slashes their ids contain. */
  lemma Isolation(key: string, doc: string, other: string)
    requires Belongs(key, doc) && Belongs(key, other)
    ensures doc == other
  {
    var p, q := |OpPrefix(doc)|, |OpPrefix(other)|;
    var m := SuffixSlashes(key[p..]);
    var n := SuffixSlashes(key[q..]);
    assert key[p - 1] == OpPrefix(doc)[p - 1] == '/' && key[q - 1] == OpPrefix(other)[q - 1] == '/';
    assert forall i :: p <= i < |key| ==> key[i] == key[p..][i - p];
    assert forall i :: q <= i < |key| ==> key[i] == key[q..][i - q];
    assert key[p + m] == '/' && key[q + n] == '/';
    assert p + m == q + n;
    assert p == q;
    assert OpPrefix(doc) == key[..p] == OpPrefix(other);
    assert doc == OpPrefix(doc)[4..p - 4] && other == OpPrefix(other)[4..p - 4];
  }

  // ----- the browser's difference -----

  method CommonPrefix(before: string, after: string) returns (i: nat)
    ensures i <= |before| && i <= |after| && before[..i] == after[..i]
  {
    i := 0;
    var n := Min(|before|, |after|);
    while i < n && before[i] == after[i]
      invariant i <= n && before[..i] == after[..i]
    {
      i := i + 1;
    }
  }

  method CommonSuffix(before: string, after: string, i: nat) returns (j: nat)
    requires i <= |before| && i <= |after|
    ensures i + j <= |before| && i + j <= |after| && before[|before| - j..] == after[|after| - j..]
  {
    j := 0;
    while j < |before| - i && j < |after| - i && before[|before| - 1 - j] == after[|after| - 1 - j]
      invariant i + j <= |before| && i + j <= |after| && before[|before| - j..] == after[|after| - j..]
    {
      TailsGrow(before, after, j);
      j := j + 1;
    }
  }

  function DeltaOps(i: nat, len: nat, text: string): seq<Op> {
    (if len != 0 then [Delete(i, len)] else []) + if text != "" then [Insert(i, text)] else []
  }

  /** `computeDelta`: at most one deletion and one insertion that turn the old text into the new one. */
  method ComputeDelta(before: string, after: string) returns (out: seq<Op>)
    ensures ApplyAll(before, out) == after
    ensures |out| <= 2 && (out == [] <==> before == after)
  {
    if before == after { return []; }
    var i := CommonPrefix(before, after);
    var j := CommonSuffix(before, after, i);
    var oldMid, newMid := before[i..|before| - j], after[i..|after| - j];
    DeltaWorks(before, after, i, j, |oldMid|, newMid);
    out := [];
    if |oldMid| != 0 { out := out + [Delete(i, |oldMid|)]; }
    if |newMid| != 0 { out := out + [Insert(i, newMid)]; }
    assert out == DeltaOps(i, |oldMid|, newMid);
  }

  lemma TailsGrow(x: string, y: string, j: nat)
    requires j < |x| && j < |y| && x[|x| - j..] == y[|y| - j..] && x[|x| - 1 - j] == y[|y| - 1 - j]
    ensures x[|x| - (j + 1)..] == y[|y| - (j + 1)..]
  {
    assert x[|x| - (j + 1)..] == [x[|x| - 1 - j]] + x[|x| - j..];
    assert y[|y| - (j + 1)..] == [y[|y| - 1 - j]] + y[|y| - j..];
  }

  lemma DeltaTexts(x: string, y: string, i: nat, j: nat, l: nat, t: string)
    requires i + j <= |x| && i + j <= |y| && x[..i] == y[..i] && x[|x| - j..] == y[|y| - j..]
    requires l == |x| - j - i && t == y[i..|y| - j]
    ensures Apply(Apply(x, Delete(i, l)), Insert(i, t)) == y
    ensures l == 0 ==> Apply(x, Insert(i, t)) == y
    ensures t == "" ==> Apply(x, Delete(i, l)) == y
    ensures l == 0 && t == "" ==> x == y
  {
    var head, tail := x[..i], x[|x| - j..];
    var mid := Apply(x, Delete(i, l));
    assert mid == head + tail;
    assert mid[..i] == head && mid[i..] == tail;
    assert y == head + t + tail;
  }

  lemma ApplyOne(x: string, d: Op)
    ensures ApplyAll(x, [d]) == Apply(x, d)
  {
    assert [d][1..] == [];
  }

  lemma ApplyTwo(x: string, d: Op, e: Op)
    ensures ApplyAll(x, [d, e]) == Apply(Apply(x, d), e)
  {
    assert [d, e][1..] == [e];
    ApplyOne(Apply(x, d), e);
  }

  lemma DeltaApplied(x: string, i: nat, len: nat, text: string)
    ensures ApplyAll(x, DeltaOps(i, len, text)) ==
            if len == 0 && text == "" then x
            else if len == 0 then Apply(x, Insert(i, text))
            else if text == "" then Apply(x, Delete(i, len))
            else Apply(Apply(x, Delete(i, len)), Insert(i, text))
  {
    var d, e := Delete(i, len), Insert(i, text);
    if len != 0 && text != "" {
      assert [d] + [e] == [d, e];
      ApplyTwo(x, d, e);
    } else if len != 0 {
      assert [d] + [] == [d];
      ApplyOne(x, d);
    } else if text != "" {
      assert [] + [e] == [e];
      ApplyOne(x, e);
    }
  }

  lemma DeltaWorks(x: string, y: string, i: nat, j: nat, l: nat, t: string)
    requires i + j <= |x| && i + j <= |y| && x[..i] == y[..i] && x[|x| - j..] == y[|y| - j..] && x != y
    requires l == |x| - j - i && t == y[i..|y| - j]
    ensures ApplyAll(x, DeltaOps(i, l, t)) == y && (l != 0 || t != "")
  {
    DeltaTexts(x, y, i, j, l, t);
    DeltaApplied(x, i, l, t);
  }
}
