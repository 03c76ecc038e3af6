/**
The aws-chunked body: its framing, its signature chain and what must hold at its end.
Hashes, signatures and checksums are uninterpreted, as are the trimming and folding of
header names and values.
*/
module Chunked {
  import opened Base
  import opened Bytes

  const MAX_LINE := 0x1000          // 4 << 10
  const MAX_TRAILER_LINES := 16
  const MAX_CHUNK := 0x4000_0000    // 1 << 30
  const CR: byte := 13
  const LF: byte := 10
  const COLON: byte := 58
  const SEMICOLON: byte := 59

  /** What a trailer value of a name amounts to: no checksum, a bad one, or a value. */
  datatype Arrived = NoChecksum | BadChecksum | Sum(value: seq<byte>)

  /** A checksum running over the body: its folded name, and the value a request header
      declared for it, if one did. */
  datatype Expect = Expect(name: seq<byte>, declared: Option<seq<byte>>)

  datatype Mode = Unsigned | Signed | SignedTrailer

  datatype Env = Env(mode: Mode,
                     chunkSig: (seq<byte>, seq<byte>) -> seq<byte>,
                     trailerSig: (seq<byte>, seq<byte>) -> seq<byte>,
                     sum: (seq<byte>, seq<byte>) -> seq<byte>,
                     arrived: (seq<byte>, seq<byte>) -> Arrived,
                     fold: seq<byte> -> seq<byte>,
                     trim: seq<byte> -> seq<byte>,
                     signatureName: seq<byte>,
                     declared: int,
                     checksums: seq<Expect>)

  // ------------------------------------------------------------------- lines

  function IndexOf(s: seq<byte>, from: nat, b: byte): (i: nat)
    requires from <= |s|
    ensures from <= i <= |s| && (i < |s| ==> s[i] == b) && forall j | from <= j < i :: s[j] != b
    decreases |s| - from
  {
    if from == |s| || s[from] == b then from else IndexOf(s, from + 1, b)
  }

  /** A line: where its text ends, and where the next one starts. */
  datatype LineRead = Line(end: nat, next: nat) | AtEnd | TooLong

  /** A line's text is without its newline and the return before it; a last line without
      a newline is still a line. */
  function ReadLine(s: seq<byte>, pos: nat): (r: LineRead)
    requires pos <= |s|
    ensures r.Line? ==> pos <= r.end <= r.next <= |s| && pos < r.next
  {
    if pos == |s| then AtEnd else
    var i := IndexOf(s, pos, LF);
    var next := if i < |s| then i + 1 else i;
    if next - pos > MAX_LINE then TooLong
    else Line(if i > pos && s[i - 1] == CR then i - 1 else i, next)
  }

  // ----------------------------------------------------------- chunk headers

  function HexDigit(b: byte): Option<nat> {
    if 48 <= b <= 57 then Some(b - 48)
    else if 97 <= b <= 102 then Some(b - 87)
    else if 65 <= b <= 70 then Some(b - 55)
    else None
  }

  function HexValue(s: seq<byte>, from: nat, end: nat): Option<nat>
    requires from <= end <= |s|
    decreases end
  {
    if from == end then Some(0) else
    var before := HexValue(s, from, end - 1);
    var digit := HexDigit(s[end - 1]);
    if before.None? || digit.None? then None else Some(before.value * 16 + digit.value)
  }

  /** A chunk size: hexadecimal, a sign allowed, from 0 to the largest chunk. */
  function ParseSize(s: seq<byte>, from: nat, end: nat): Option<nat>
    requires from <= end <= |s|
  {
    var signed := from < end && (s[from] == 43 || s[from] == 45);
    var start := if signed then from + 1 else from;
    var value := HexValue(s, start, end);
    if start == end || value.None? || value.value > MAX_CHUNK then None
    else if s[from] == 45 && value.value > 0 then None
    else value
  }

  // "chunk-signature="
  const SIGNATURE: seq<byte> := [99, 104, 117, 110, 107, 45, 115, 105, 103, 110, 97, 116, 117, 114, 101, 61]
  const SIGNATURE_SIZE := 16

  datatype Header = Header(size: nat, sig: seq<byte>)

  /** A chunk's header line, from pos to end: its size, and a signature where the mode
      has them, none where it has not. */
  function ParseHeader(mode: Mode, s: seq<byte>, pos: nat, end: nat): Option<Header>
    requires pos <= end <= |s|
  {
    var found := IndexOf(s, pos, SEMICOLON);
    var i := if found < end then found else end;
    var at := i + 1 + SIGNATURE_SIZE;
    var size := ParseSize(s, pos, i);
    if size.None? then None
    else if i == end then if mode.Unsigned? then Some(Header(size.value, [])) else None
    else if mode.Unsigned? || at > end || s[i + 1..at] != SIGNATURE then None
    else Some(Header(size.value, s[at..end]))
  }

  /** A size as a client writes it. */
  function HexText(n: nat): (s: seq<byte>)
    ensures |s| >= 1 && forall i | 0 <= i < |s| :: 48 <= s[i] <= 57 || 97 <= s[i] <= 102
  {
    var digit: byte := if n % 16 < 10 then 48 + n % 16 else 87 + n % 16;
    if n < 16 then [digit] else HexText(n / 16) + [digit]
  }

  lemma {:induction false} HexValueOfText(s: seq<byte>, from: nat, n: nat)
    requires from + |HexText(n)| <= |s| && s[from..from + |HexText(n)|] == HexText(n)
    ensures HexValue(s, from, from + |HexText(n)|) == Some(n)
    decreases n
  {
    var text := HexText(n);
    var end := from + |text|;
    assert s[end - 1] == s[from..end][|text| - 1];
    if n < 16 {
      assert HexValue(s, from, from) == Some(0);
    } else {
      assert s[from..end - 1] == s[from..end][..|text| - 1] == HexText(n / 16);
      HexValueOfText(s, from, n / 16);
    }
  }

  /** A header line printed as a client prints it is read back: its size, and its
      signature if the mode has signatures and it carries one; otherwise it is refused, as is
      a size beyond the largest. */
  lemma HeaderReadBack(mode: Mode, s: seq<byte>, pos: nat, n: nat, sig: Option<seq<byte>>, end: nat)
    requires end <= |s|
    requires pos + |HexText(n)| <= |s| && s[pos..pos + |HexText(n)|] == HexText(n)
    requires var i := pos + |HexText(n)|;
             if sig.None? then end == i
             else && i + 1 + SIGNATURE_SIZE <= end && s[i] == SEMICOLON
                  && s[i + 1..i + 1 + SIGNATURE_SIZE] == SIGNATURE && s[i + 1 + SIGNATURE_SIZE..end] == sig.value
    ensures ParseHeader(mode, s, pos, end) ==
            if n > 0x4000_0000 then None
            else if mode.Unsigned? then if sig.None? then Some(Header(n, [])) else None
            else if sig.None? then None else Some(Header(n, sig.value))
  {
    var i := pos + |HexText(n)|;
    HexValueOfText(s, pos, n);
    forall j | pos <= j < i
      ensures s[j] != SEMICOLON && s[j] != 43 && s[j] != 45
    {
      assert s[j] == s[pos..i][j - pos];
    }
    assert ParseSize(s, pos, i) == if n > MAX_CHUNK then None else Some(n);
  }

  // ----------------------------------------------------------------- trailer

  /** The trailer lines as their signature covers them, the latest outermost. */
  datatype Canonical = Empty | Field(before: Canonical, name: seq<byte>, value: seq<byte>)

  /** name:value and a newline for each. */
  function Rendered(c: Canonical): seq<byte> {
    match c
    case Empty => []
    case Field(before, name, value) => Rendered(before) + name + [COLON] + value + [LF]
  }

  datatype Trailer = Trailer(fields: map<seq<byte>, seq<byte>>, canonical: Canonical, sig: seq<byte>)

  const NO_TRAILER := Trailer(map[], Empty, [])

  /** One trailer line: a name, a colon, a value. */
  function TrailerLine(env: Env, t: Trailer, s: seq<byte>, pos: nat, end: nat): Option<Trailer>
    requires pos <= end <= |s|
  {
    var i := IndexOf(s, pos, COLON);
    if i >= end then None else
    var name, value := env.fold(s[pos..i]), env.trim(s[i + 1..end]);
    if name == env.signatureName then Some(t.(sig := value))
    else Some(t.(fields := t.fields[name := value], canonical := Field(t.canonical, name, value)))
  }

  /** The trailer: up to an empty line, the end of the body, or sixteen lines. */
  function ReadTrailer(env: Env, s: seq<byte>, pos: nat, left: nat, t: Trailer): Option<Trailer>
    requires pos <= |s|
    decreases left
  {
    if left == 0 then Some(t) else
    match ReadLine(s, pos)
    case AtEnd => Some(t)
    case TooLong => None
    case Line(end, next) =>
      if pos == end then Some(t) else
      var more := TrailerLine(env, t, s, pos, end);
      if more.None? then None else ReadTrailer(env, s, next, left - 1, more.value)
  }

  // ----------------------------------------------------------------- the end

  predicate FirstOf(checksums: seq<Expect>, i: nat, name: seq<byte>) {
    i < |checksums| && checksums[i].name == name && forall j | 0 <= j < i :: checksums[j].name != name
  }

  /** A value that arrived in the trailer belongs to a running checksum and equals it. */
  predicate ArrivedRight(env: Env, payload: seq<byte>, name: seq<byte>, value: seq<byte>) {
    match env.arrived(name, value)
    case NoChecksum => true
    case BadChecksum => false
    case Sum(v) => v == env.sum(name, payload) && exists e | e in env.checksums :: e.name == name
  }

  predicate Arrives(env: Env, fields: map<seq<byte>, seq<byte>>, name: seq<byte>) {
    name in fields && env.arrived(name, fields[name]).Sum?
  }

  /** A running checksum was settled by the trailer, or else equals what was declared. */
  predicate Settled(env: Env, payload: seq<byte>, fields: map<seq<byte>, seq<byte>>, i: nat)
    requires i < |env.checksums|
  {
    var e := env.checksums[i];
    || (Arrives(env, fields, e.name) && FirstOf(env.checksums, i, e.name))
    || (e.declared.Some? && e.declared.value == env.sum(e.name, payload))
  }

  /** settle: the declared length, and every checksum. */
  predicate Settles(env: Env, payload: seq<byte>, fields: map<seq<byte>, seq<byte>>) {
    && |payload| == env.declared
    && (forall name | name in fields :: ArrivedRight(env, payload, name, fields[name]))
    && (forall i | 0 <= i < |env.checksums| :: Settled(env, payload, fields, i))
  }

  // ---------------------------------------------------------- the whole body

  datatype End = Good(payload: seq<byte>) | Bad

  function SigOk(env: Env, prev: seq<byte>, sig: seq<byte>, data: seq<byte>): bool {
    env.mode.Unsigned? || env.chunkSig(prev, data) == sig
  }

  function NextSig(env: Env, prev: seq<byte>, sig: seq<byte>): seq<byte> { if env.mode.Unsigned? then prev else sig }

  /** After the final chunk's header line. */
  function Finish(env: Env, s: seq<byte>, pos: nat, prev: seq<byte>, sig: seq<byte>, payload: seq<byte>): Option<Trailer>
    requires pos <= |s|
  {
    if !SigOk(env, prev, sig, []) then None else
    var t := ReadTrailer(env, s, pos, MAX_TRAILER_LINES, NO_TRAILER);
    if t.None? then None
    else if env.mode.SignedTrailer? && env.trailerSig(NextSig(env, prev, sig), Rendered(t.value.canonical)) != t.value.sig then None
    else if !Settles(env, payload, t.value.fields) then None
    else t
  }

  /** From a chunk boundary, with the payload before it. */
  function Decode(env: Env, s: seq<byte>, pos: nat, prev: seq<byte>, payload: seq<byte>): End
    requires pos <= |s|
    decreases |s| - pos, 1, 0
  {
    match ReadLine(s, pos)
    case AtEnd => Bad
    case TooLong => Bad
    case Line(end, next) =>
      var h := ParseHeader(env.mode, s, pos, end);
      if h.None? then Bad
      else if h.value.size == 0 then if Finish(env, s, next, prev, h.value.sig, payload).Some? then Good(payload) else Bad
      else Data(env, s, next, prev, h.value.sig, h.value.size, payload, [])
  }

  /** From inside a chunk, with what of it has been read. */
  function Data(env: Env, s: seq<byte>, pos: nat, prev: seq<byte>, sig: seq<byte>, remaining: nat,
                payload: seq<byte>, chunk: seq<byte>): End
    requires pos <= |s|
    decreases |s| - pos, 0, 1
  {
    var end := pos + remaining;
    if |s| < end then Bad
    else Close(env, s, end, prev, sig, payload + s[pos..end], chunk + s[pos..end])
  }

  /** From the end of a chunk's data. */
  function Close(env: Env, s: seq<byte>, end: nat, prev: seq<byte>, sig: seq<byte>, payload: seq<byte>, chunk: seq<byte>): End
    requires end <= |s|
    decreases |s| - end, 0, 0
  {
    if |s| - end < 2 || s[end] != CR || s[end + 1] != LF || !SigOk(env, prev, sig, chunk) then Bad
    else Decode(env, s, end + 2, NextSig(env, prev, sig), payload)
  }
}
