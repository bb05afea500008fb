/** Files of one JSON row per line, read by byte offset. */
module Jsonl {
  import opened Bytes
  import opened Options
  import opened Sequences
  import opened Examples

  const NEWLINE: byte := 10

  /**
   How a row is written and read. The JSON library itself is not modelled; `Faithful` is what
   the audit relies on.
   */
  datatype Codec = Codec(render: Example -> seq<byte>, parse: seq<byte> -> Option<Example>) {

    /** Rendering is one line that parses back; blank lines and lines of NULs never parse. */
    ghost predicate Faithful() {
      && (forall r :: IsLine(render(r)) && |render(r)| >= 5 && parse(render(r)) == Some(r))
      && (forall line :: Blank(line) ==> parse(line) == None)
      && (forall line :: StartsWithNuls(line) ==> parse(line) == None)
    }
  }

  /** A line ends at its only newline. */
  predicate IsLine(b: seq<byte>) {
    b != [] && b[|b| - 1] == NEWLINE && forall i :: 0 <= i < |b| - 1 ==> b[i] != NEWLINE
  }

  /** Only ASCII white space: what bytes.strip() removes. */
  predicate Blank(line: seq<byte>) {
    forall i :: 0 <= i < |line| ==> line[i] == 32 || 9 <= line[i] <= 13
  }

  /** The six bytes of ASCII white space. */
  lemma BlankMeaning(line: seq<byte>)
    ensures Blank(line) <==> forall c :: c in line ==> c in {9, 10, 11, 12, 13, 32}
  {
    assert forall i :: 0 <= i < |line| ==> line[i] in line;
  }

  predicate StartsWithNuls(line: seq<byte>) {
    |line| >= 4 && line[0] == line[1] == line[2] == line[3] == 0
  }

  /** Where the line that holds position i ends: after its newline, or at the end of the file. */
  function EndFrom(b: seq<byte>, i: nat): (n: nat)
    requires i < |b|
    ensures i < n <= |b|
    ensures forall k :: i <= k < n - 1 ==> b[k] != NEWLINE
    ensures b[n - 1] == NEWLINE || n == |b|
    decreases |b| - i
  {
    if b[i] == NEWLINE || i + 1 == |b| then i + 1 else EndFrom(b, i + 1)
  }

  function LineEnd(b: seq<byte>): nat
    requires b != []
  {
    EndFrom(b, 0)
  }

  /** The first line ends behind the first line feed, or with the file. */
  lemma LineEndMeaning(b: seq<byte>)
    requires b != []
    ensures var n := LineEnd(b);
      && 0 < n <= |b| && (n < |b| ==> b[n - 1] == 10) && forall i :: 0 <= i < n - 1 ==> b[i] != 10
  {
  }

  /** The rows of one line: none if it is blank or does not parse. */
  function RowOf(c: Codec, line: seq<byte>): seq<Example> {
    if Blank(line) then [] else match c.parse(line) case Some(r) => [r] case None => []
  }

  /** The rows of a file, blank lines skipped. */
  function Rows(c: Codec, b: seq<byte>): seq<Example> {
    if b == [] then [] else RowOf(c, b[..LineEnd(b)]) + Rows(c, b[LineEnd(b)..])
  }

  /** Every line that is not blank parses. */
  predicate WellFormed(c: Codec, b: seq<byte>) {
    b == [] || ((Blank(b[..LineEnd(b)]) || c.parse(b[..LineEnd(b)]).Some?) && WellFormed(c, b[LineEnd(b)..]))
  }

  /** Reading with no blank line allowed: None where the strict reader raises. */
  function Reread(c: Codec, b: seq<byte>): Option<seq<Example>> {
    if b == [] then Some([])
    else match (c.parse(b[..LineEnd(b)]), Reread(c, b[LineEnd(b)..]))
      case (Some(r), Some(rest)) => Some([r] + rest)
      case _ => None
  }

  function RenderAll(c: Codec, rows: seq<Example>): seq<byte> {
    if rows == [] then [] else c.render(rows[0]) + RenderAll(c, rows[1..])
  }

  /** An offset a reader of whole lines can stop at. */
  predicate Boundary(b: seq<byte>, off: nat) {
    off <= |b| && (off == 0 || off == |b| || b[off - 1] == NEWLINE)
  }

  lemma LineEndUnique(b: seq<byte>, n: nat)
    requires 0 < n <= |b| && (forall i :: 0 <= i < n - 1 ==> b[i] != NEWLINE) && (b[n - 1] == NEWLINE || n == |b|)
    ensures LineEnd(b) == n
  {
  }

  lemma FirstLine(c: Codec, b: seq<byte>)
    requires b != []
    ensures Rows(c, b) == RowOf(c, b[..LineEnd(b)]) + Rows(c, b[LineEnd(b)..])
    ensures WellFormed(c, b)
        <==> (Blank(b[..LineEnd(b)]) || c.parse(b[..LineEnd(b)]).Some?) && WellFormed(c, b[LineEnd(b)..])
  {
  }

  lemma FirstLineOfPrefix(b: seq<byte>, off: nat)
    requires off > 0 && Boundary(b, off)
    ensures LineEnd(b) <= off && LineEnd(b[..off]) == LineEnd(b)
    ensures b[..off][..LineEnd(b)] == b[..LineEnd(b)]
    ensures b[..off][LineEnd(b)..] == b[LineEnd(b)..][..off - LineEnd(b)]
    ensures b[off..] == b[LineEnd(b)..][off - LineEnd(b)..]
    ensures Boundary(b[LineEnd(b)..], off - LineEnd(b))
  {
    LineEndUnique(b[..off], LineEnd(b));
  }

  /** A boundary splits the rows of a file where it splits its bytes. */
  lemma {:induction false} RowsSplit(c: Codec, b: seq<byte>, off: nat)
    requires Boundary(b, off)
    ensures Rows(c, b) == Rows(c, b[..off]) + Rows(c, b[off..])
    decreases |b|
  {
    if off == 0 {
      assert b[off..] == b && b[..off] == [];
    } else {
      FirstLineOfPrefix(b, off);
      var n := LineEnd(b);
      var rest := b[n..];
      RowsSplit(c, rest, off - n);
      FirstLine(c, b);
      FirstLine(c, b[..off]);
      Regroup(RowOf(c, b[..n]), Rows(c, rest[..off - n]), Rows(c, b[off..]));
    }
  }

  lemma {:induction false} WellFormedSuffix(c: Codec, b: seq<byte>, off: nat)
    requires Boundary(b, off) && WellFormed(c, b)
    ensures WellFormed(c, b[off..])
    decreases |b|
  {
    if off == 0 {
      assert b[off..] == b;
    } else {
      var rest, at := WellFormedRest(c, b, off);
      WellFormedSuffix(c, rest, at);
    }
  }

  lemma WellFormedRest(c: Codec, b: seq<byte>, off: nat) returns (rest: seq<byte>, at: nat)
    requires off > 0 && Boundary(b, off) && WellFormed(c, b)
    ensures Boundary(rest, at) && WellFormed(c, rest) && |rest| < |b| && rest[at..] == b[off..]
  {
    rest, at := BoundaryRest(b, off);
    FirstLine(c, b);
  }

  lemma BoundaryRest(b: seq<byte>, off: nat) returns (rest: seq<byte>, at: nat)
    requires off > 0 && Boundary(b, off)
    ensures rest == b[LineEnd(b)..] && Boundary(rest, at) && rest[at..] == b[off..]
  {
    rest, at := b[LineEnd(b)..], off - LineEnd(b);
    FirstLineOfPrefix(b, off);
  }

  lemma {:induction false} RenderAllAppend(c: Codec, a: seq<Example>, b: seq<Example>)
    ensures RenderAll(c, a + b) == RenderAll(c, a) + RenderAll(c, b)
  {
    if a == [] {
      assert a + b == b;
    } else {
      RenderAllAppend(c, a[1..], b);
      assert (a + b)[1..] == a[1..] + b;
    }
  }

  /** What is written reads back, by the skipping reader and by the strict one. */
  lemma {:induction false} RoundTrip(c: Codec, rows: seq<Example>)
    requires c.Faithful()
    ensures Rows(c, RenderAll(c, rows)) == rows
    ensures WellFormed(c, RenderAll(c, rows))
    ensures Reread(c, RenderAll(c, rows)) == Some(rows)
  {
    if rows != [] {
      var line := c.render(rows[0]);
      LineInFront(line, RenderAll(c, rows[1..]));
      RoundTrip(c, rows[1..]);
      assert !Blank(line) && c.parse(line) == Some(rows[0]);
    }
  }

  lemma LineInFront(line: seq<byte>, rest: seq<byte>)
    requires IsLine(line)
    ensures LineEnd(line + rest) == |line| && (line + rest)[..|line|] == line && (line + rest)[|line|..] == rest
  {
    var b := line + rest;
    assert forall i :: 0 <= i < |line| ==> b[i] == line[i];
    LineEndUnique(b, |line|);
  }

  /** A file that opens with NULs is refused by the strict reader. */
  lemma NulsRefused(c: Codec, b: seq<byte>)
    requires c.Faithful() && StartsWithNuls(b)
    ensures Reread(c, b) == None
  {
    var n := LineEnd(b);
    assert n >= 4;
    assert StartsWithNuls(b[..n]);
  }
}
