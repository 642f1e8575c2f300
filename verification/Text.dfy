/** The string operations the reader and the printers share: white space, case, splitting and joining. */
module Text {

  /** `isspace` of the C locale. */
  predicate IsSpace(c: char) {
    9 <= c as int <= 13 || c == ' '
  }

  predicate IsUpper(c: char) { 'A' <= c <= 'Z' }

  predicate IsLower(c: char) { 'a' <= c <= 'z' }

  function LowerChar(c: char): char {
    if IsUpper(c) then (c as int + 32) as char else c
  }

  function UpperChar(c: char): char {
    if IsLower(c) then (c as int - 32) as char else c
  }

  function ToLower(s: string): (r: string)
    ensures |r| == |s|
  {
    seq(|s|, i requires 0 <= i < |s| => LowerChar(s[i]))
  }

  function ToUpper(s: string): (r: string)
    ensures |r| == |s|
  {
    seq(|s|, i requires 0 <= i < |s| => UpperChar(s[i]))
  }

  predicate StartsWith(s: string, prefix: string) {
    prefix <= s
  }

  predicate NoSpace(s: string) {
    forall c :: c in s ==> !IsSpace(c)
  }

  /** No white space at either end. */
  predicate Trimmed(s: string) {
    s == "" || (!IsSpace(s[0]) && !IsSpace(s[|s| - 1]))
  }

  function TrimLeft(s: string): (r: string)
    ensures |r| <= |s|
    ensures r == s[|s| - |r|..]
    ensures r == "" || !IsSpace(r[0])
  {
    if s != "" && IsSpace(s[0]) then TrimLeft(s[1..]) else s
  }

  function TrimRight(s: string): (r: string)
    ensures |r| <= |s|
    ensures r == s[..|r|]
    ensures r == "" || !IsSpace(r[|r| - 1])
  {
    if s != "" && IsSpace(s[|s| - 1]) then TrimRight(s[..|s| - 1]) else s
  }

  function Trim(s: string): (r: string)
    ensures Trimmed(r)
    ensures Trimmed(s) ==> r == s
  {
    TrimRight(TrimLeft(s))
  }

  /** The index of the first occurrence of `c` at or after `from`, or `|s|`. */
  function Find(s: string, c: char, from: nat): (pos: nat)
    requires from <= |s|
    ensures from <= pos <= |s|
    ensures forall k :: from <= k < pos ==> s[k] != c
    ensures pos < |s| ==> s[pos] == c
    decreases |s| - from
  {
    if from == |s| || s[from] == c then from else Find(s, c, from + 1)
  }

  /** The pieces between delimiters from `start` on; an empty rest is one empty piece. */
  function SplitFrom(text: string, delimiter: char, start: nat): (parts: seq<string>)
    requires start <= |text|
    ensures |parts| > 0
    decreases |text| - start
  {
    var pos := Find(text, delimiter, start);
    if pos == |text| then [text[start..]] else [text[start..pos]] + SplitFrom(text, delimiter, pos + 1)
  }

  function SplitSpec(text: string, delimiter: char): (parts: seq<string>)
    ensures |parts| > 0
  {
    SplitFrom(text, delimiter, 0)
  }

  /** The source's loop over `start`, one `find` per piece. */
  method Split(text: string, delimiter: char) returns (parts: seq<string>)
    ensures parts == SplitSpec(text, delimiter)
  {
    parts := [];
    var start := 0;
    while start <= |text|
      invariant 0 <= start <= |text|
      invariant parts + SplitFrom(text, delimiter, start) == SplitSpec(text, delimiter)
      decreases |text| - start
    {
      hide Find;
      var pos := Find(text, delimiter, start);
      if pos == |text| {
        parts := parts + [text[start..]];
        break;
      }
      parts := parts + [text[start..pos]];
      start := pos + 1;
    }
  }

  function Join(parts: seq<string>, delimiter: char): string {
    if |parts| == 0 then ""
    else if |parts| == 1 then parts[0]
    else parts[0] + [delimiter] + Join(parts[1..], delimiter)
  }

  /** Splitting undoes joining whenever no part contains the delimiter. */
  lemma SplitJoin(parts: seq<string>, delimiter: char)
    requires |parts| > 0
    requires forall i :: 0 <= i < |parts| ==> delimiter !in parts[i]
    ensures SplitSpec(Join(parts, delimiter), delimiter) == parts
  {
    var text := Join(parts, delimiter);
    assert text[0..] == text;
    SplitJoinAt(text, 0, parts, delimiter);
  }

  lemma {:induction false} SplitJoinAt(text: string, start: nat, parts: seq<string>, delimiter: char)
    requires |parts| > 0
    requires forall i :: 0 <= i < |parts| ==> delimiter !in parts[i]
    requires start <= |text| && text[start..] == Join(parts, delimiter)
    ensures SplitFrom(text, delimiter, start) == parts
    decreases |parts|
  {
    var first := parts[0];
    var pos := start + |first|;
    FindAfter(text, start, first, delimiter);
    if |parts| > 1 {
      var rest := Join(parts[1..], delimiter);
      DropPiece(text, start, first, delimiter, rest);
      SplitJoinAt(text, pos + 1, parts[1..], delimiter);
    }
  }

  lemma DropPiece(text: string, start: nat, first: string, c: char, rest: string)
    requires start <= |text| && text[start..] == first + [c] + rest
    ensures start + |first| + 1 <= |text|
    ensures text[start + |first|] == c
    ensures text[start + |first| + 1..] == rest
  {
    var tail := text[start..];
    assert tail[|first|] == c;
    assert tail[|first| + 1..] == rest;
  }

  lemma FindAfter(text: string, start: nat, first: string, c: char)
    requires start + |first| <= |text| && text[start..start + |first|] == first
    requires c !in first
    requires start + |first| < |text| ==> text[start + |first|] == c
    ensures Find(text, c, start) == start + |first|
  {
    var piece := text[start..start + |first|];
    assert forall k :: start <= k < start + |first| ==> text[k] == piece[k - start];
  }

  lemma CharsOfJoin(parts: seq<string>, delimiter: char, c: char)
    requires c in Join(parts, delimiter)
    ensures c == delimiter || exists i :: 0 <= i < |parts| && c in parts[i]
  {
    if |parts| >= 2 && c !in parts[0] && c != delimiter {
      CharsOfJoin(parts[1..], delimiter, c);
      var i :| 0 <= i < |parts[1..]| && c in parts[1..][i];
      assert c in parts[i + 1];
    }
  }

  /** A joined list has no white space at its ends when its first and last parts have none. */
  lemma JoinTrimmed(parts: seq<string>, delimiter: char)
    requires !IsSpace(delimiter)
    requires forall i :: 0 <= i < |parts| ==> parts[i] != "" && Trimmed(parts[i])
    ensures Trimmed(Join(parts, delimiter))
    ensures |parts| > 0 ==> Join(parts, delimiter) != "" && Join(parts, delimiter)[0] == parts[0][0]
  {
    if |parts| >= 2 {
      JoinTrimmed(parts[1..], delimiter);
      var rest := Join(parts[1..], delimiter);
      var s := Join(parts, delimiter);
      assert s[|s| - 1] == rest[|rest| - 1];
    }
  }
}
