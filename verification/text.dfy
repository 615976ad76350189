/** The JavaScript string operations the handlers use: `split` on a one-character
    separator, `join` with one, and `includes`. */
module Text {

  /** `s.split(sep)`: the pieces between separators; `"".split(",")` is `[""]`. */
  function Split(s: string, sep: char): (parts: seq<string>)
    ensures |parts| >= 1
    ensures forall i :: 0 <= i < |parts| ==> sep !in parts[i]
    decreases |s|
  {
    if s == [] then [""]
    else if s[0] == sep then [""] + Split(s[1..], sep)
    else
      var rest := Split(s[1..], sep);
      [[s[0]] + rest[0]] + rest[1..]
  }

  /** `parts.join(sep)`: `[].join(",")` is `""`. */
  function Join(parts: seq<string>, sep: char): (s: string)
    decreases |parts|
  {
    if |parts| == 0 then ""
    else if |parts| == 1 then parts[0]
    else parts[0] + [sep] + Join(parts[1..], sep)
  }

  /** The join starts with the first piece and ends with the last; for
      separator-free pieces it holds a separator exactly when there are two
      pieces or more. */
  lemma {:induction false} JoinShape(parts: seq<string>, sep: char)
    ensures |parts| == 0 ==> Join(parts, sep) == ""
    ensures |parts| >= 1 ==> parts[0] <= Join(parts, sep)
    ensures |parts| >= 1 ==> var s, last := Join(parts, sep), parts[|parts| - 1];
      |last| <= |s| && s[|s| - |last|..] == last
    ensures (forall i :: 0 <= i < |parts| ==> sep !in parts[i]) ==> (sep in Join(parts, sep) <==> |parts| >= 2)
    decreases |parts|
  {
    if |parts| >= 2 {
      var s, tail := Join(parts, sep), Join(parts[1..], sep);
      JoinShape(parts[1..], sep);
      assert s == parts[0] + ([sep] + tail);
      assert s[|parts[0]|] == sep;
      var last := parts[|parts| - 1];
      assert last == parts[1..][|parts[1..]| - 1];
      assert s[|s| - |tail|..] == tail;
      assert s[|s| - |last|..] == tail[|tail| - |last|..];
      if forall i :: 0 <= i < |parts| ==> sep !in parts[i] {
        assert sep in s;
      }
    }
  }

  /** `sub` occurs in `s` starting at index `i`. */
  predicate OccursAt(s: string, sub: string, i: int) {
    0 <= i && i + |sub| <= |s| && s[i..i + |sub|] == sub
  }

  /** `s.includes(sub)`. */
  function Includes(s: string, sub: string): (b: bool)
    ensures b <==> exists i :: OccursAt(s, sub, i)
    decreases |s|
  {
    if |s| < |sub| then false
    else if s[..|sub|] == sub then assert OccursAt(s, sub, 0); true
    else
      var b := Includes(s[1..], sub);
      assert forall i :: OccursAt(s[1..], sub, i) ==> OccursAt(s, sub, i + 1);
      assert forall i :: OccursAt(s, sub, i) ==> i == 0 || OccursAt(s[1..], sub, i - 1);
      b
  }

  /** Joining a piece in front of one or more pieces puts a separator between them. */
  lemma JoinCons(p: string, rest: seq<string>, sep: char)
    requires |rest| >= 1
    ensures Join([p] + rest, sep) == p + [sep] + Join(rest, sep)
  {
    assert ([p] + rest)[1..] == rest;
  }

  /** Gluing a character onto the first of one or more pieces glues it onto the join. */
  lemma JoinGlue(c: char, rest: seq<string>, sep: char)
    requires |rest| >= 1
    ensures Join([[c] + rest[0]] + rest[1..], sep) == [c] + Join(rest, sep)
  {
    if |rest| >= 2 {
      JoinCons([c] + rest[0], rest[1..], sep);
      JoinCons(rest[0], rest[1..], sep);
      assert rest == [rest[0]] + rest[1..];
    }
  }

  /** Splitting a string and joining the pieces with the same separator gives
      the string back. */
  lemma {:induction false} JoinSplit(s: string, sep: char)
    ensures Join(Split(s, sep), sep) == s
    decreases |s|
  {
    if s != [] {
      var rest := Split(s[1..], sep);
      JoinSplit(s[1..], sep);
      if s[0] == sep {
        JoinCons("", rest, sep);
      } else {
        JoinGlue(s[0], rest, sep);
      }
      assert s == [s[0]] + s[1..];
    }
  }

  /** Splitting a string that starts with a separator-free piece `p`. */
  lemma {:induction false} SplitAfterPlain(p: string, t: string, sep: char)
    requires sep !in p
    ensures Split(p + t, sep) == [p + Split(t, sep)[0]] + Split(t, sep)[1..]
    decreases |p|
  {
    if p == [] {
      var tail := Split(t, sep);
      assert p + t == t && p + tail[0] == tail[0];
      assert tail == [tail[0]] + tail[1..];
    } else {
      SplitAfterPlain(p[1..], t, sep);
      var rest, tail := Split(p[1..] + t, sep), Split(t, sep);
      assert (p + t)[0] == p[0] && p[0] != sep;
      assert (p + t)[1..] == p[1..] + t;
      assert Split(p + t, sep) == [[p[0]] + rest[0]] + rest[1..];
      assert rest[0] == p[1..] + tail[0] && rest[1..] == tail[1..];
      assert [p[0]] + (p[1..] + tail[0]) == p + tail[0];
    }
  }

  /** Joining separator-free pieces and splitting the result gives the pieces
      back; there must be at least one piece, since `[]` and `[""]` both join to `""`. */
  lemma {:induction false} SplitJoin(parts: seq<string>, sep: char)
    requires |parts| >= 1
    requires forall i :: 0 <= i < |parts| ==> sep !in parts[i]
    ensures Split(Join(parts, sep), sep) == parts
    decreases |parts|
  {
    if |parts| == 1 {
      SplitAfterPlain(parts[0], [], sep);
      assert parts[0] + [] == parts[0];
    } else {
      var tail := Join(parts[1..], sep);
      SplitJoin(parts[1..], sep);
      assert Join(parts, sep) == parts[0] + ([sep] + tail);
      SplitAfterPlain(parts[0], [sep] + tail, sep);
      assert ([sep] + tail)[1..] == tail;
      var rest := Split([sep] + tail, sep);
      assert rest == [""] + parts[1..];
      assert rest[0] == "" && rest[1..] == parts[1..];
      assert parts[0] + "" == parts[0];
      assert parts == [parts[0]] + parts[1..];
    }
  }

  /** The first piece of a split is the longest separator-free prefix. */
  lemma {:induction false} FirstPiece(s: string, sep: char)
    ensures Split(s, sep)[0] <= s
    ensures |Split(s, sep)[0]| < |s| ==> s[|Split(s, sep)[0]|] == sep
    ensures sep !in s ==> Split(s, sep) == [s]
    decreases |s|
  {
    if s != [] && s[0] != sep {
      FirstPiece(s[1..], sep);
      assert s == [s[0]] + s[1..];
    }
  }
}
