/** The string operations of the host language that the services rely on, with the laws the codecs need. */
module Text {

  // ---- Splitting and joining -------------------------------------------------

  function Split(s: string, sep: char): (parts: seq<string>)
    ensures |parts| >= 1
    ensures forall p | p in parts :: sep !in p
  {
    if s == "" then [""]
    else
      var rest := Split(s[1..], sep);
      if s[0] == sep then [""] + rest else [[s[0]] + rest[0]] + rest[1..]
  }

  function Join(parts: seq<string>, sep: string): string {
    if |parts| == 0 then ""
    else if |parts| == 1 then parts[0]
    else parts[0] + sep + Join(parts[1..], sep)
  }

  lemma {:induction false} JoinOfSplit(s: string, sep: char)
    ensures Join(Split(s, sep), [sep]) == s
  {
    if s != "" {
      JoinOfSplit(s[1..], sep);
      var rest := Split(s[1..], sep);
      if s[0] == sep {
        assert ([""] + rest)[1..] == rest;
      } else if |rest| > 1 {
        assert ([[s[0]] + rest[0]] + rest[1..])[1..] == rest[1..];
      }
    }
  }

  // One sep-free field followed by sep is the first part of the split.
  lemma {:induction false} SplitField(field: string, sep: char, tail: string)
    requires sep !in field
    ensures Split(field + [sep] + tail, sep) == [field] + Split(tail, sep)
  {
    var s := field + [sep] + tail;
    if field == "" {
      assert s[1..] == tail;
    } else {
      SplitField(field[1..], sep, tail);
      assert s[1..] == field[1..] + [sep] + tail;
      assert s[0] == field[0] && [field[0]] + field[1..] == field;
    }
  }

  lemma {:induction false} SplitAtom(field: string, sep: char)
    requires sep !in field
    ensures Split(field, sep) == [field]
  {
    if field != "" {
      SplitAtom(field[1..], sep);
      assert [field[0]] + field[1..] == field;
    }
  }

  lemma {:induction false} SplitOfJoin(parts: seq<string>, sep: char)
    requires |parts| >= 1
    requires forall p | p in parts :: sep !in p
    ensures Split(Join(parts, [sep]), sep) == parts
  {
    if |parts| == 1 {
      SplitAtom(parts[0], sep);
    } else {
      SplitOfJoin(parts[1..], sep);
      SplitField(parts[0], sep, Join(parts[1..], [sep]));
    }
  }

  lemma {:induction false} JoinAvoids(parts: seq<string>, sep: string, c: char)
    requires c !in sep
    requires forall p | p in parts :: c !in p
    ensures c !in Join(parts, sep)
  {
    if |parts| > 1 {
      JoinAvoids(parts[1..], sep, c);
    }
  }

  // ---- Searching ---------------------------------------------------------------

  function IndexOf(s: string, c: char): (i: int)
    ensures -1 <= i < |s|
    ensures i >= 0 ==> s[i] == c
    ensures forall k | 0 <= k < (if i >= 0 then i else |s|) :: s[k] != c
  {
    if s == "" then -1
    else if s[0] == c then 0
    else
      var i := IndexOf(s[1..], c);
      if i < 0 then -1 else i + 1
  }

  lemma {:induction false} IndexOfField(field: string, c: char, tail: string)
    requires c !in field
    ensures IndexOf(field + [c] + tail, c) == |field|
  {
    var s := field + [c] + tail;
    if field != "" {
      IndexOfField(field[1..], c, tail);
      assert s[0] == field[0] && s[1..] == field[1..] + [c] + tail;
    }
  }

  function LastIndexOf(s: string, c: char): (i: int)
    ensures -1 <= i < |s|
    ensures i >= 0 ==> s[i] == c
    ensures forall k | i < k < |s| :: s[k] != c
  {
    if s == "" then -1
    else if s[|s| - 1] == c then |s| - 1
    else LastIndexOf(s[..|s| - 1], c)
  }

  lemma {:induction false} LastIndexOfField(head: string, c: char, field: string)
    requires c !in field
    ensures LastIndexOf(head + [c] + field, c) == |head|
  {
    var s := head + [c] + field;
    if field != "" {
      var n := |field| - 1;
      LastIndexOfField(head, c, field[..n]);
      assert s[|s| - 1] == field[n] && s[..|s| - 1] == head + [c] + field[..n];
    }
  }

  predicate StartsWith(s: string, prefix: string) {
    prefix <= s
  }

  predicate EndsWith(s: string, suffix: string) {
    |suffix| <= |s| && s[|s| - |suffix|..] == suffix
  }

  predicate Contains(s: string, part: string) {
    exists i {:trigger s[i..]} :: 0 <= i <= |s| && part <= s[i..]
  }

  lemma {:induction false} ContainsPair(s: string, a: char, b: char)
    ensures Contains(s, [a, b]) <==> exists i :: 0 <= i < |s| - 1 && s[i] == a && s[i + 1] == b
  {
    if i :| 0 <= i <= |s| && [a, b] <= s[i..] {
      assert s[i..][0] == a && s[i..][1] == b;
    }
    if i :| 0 <= i < |s| - 1 && s[i] == a && s[i + 1] == b {
      assert [a, b] <= s[i..];
    }
  }

  // ---- Trimming ------------------------------------------------------------------

  // WhiteSpace and LineTerminator of ECMA-262, sections 12.2 and 12.3.
  predicate IsSpace(c: char) {
    || c in {' ', '\t', '\n', '\r', '\U{0B}', '\U{0C}', '\U{A0}', '\U{1680}', '\U{FEFF}'}
    || '\U{2000}' <= c <= '\U{200A}'
    || c in {'\U{2028}', '\U{2029}', '\U{202F}', '\U{205F}', '\U{3000}'}
  }

  function TrimStart(s: string): string {
    if s != "" && IsSpace(s[0]) then TrimStart(s[1..]) else s
  }

  function TrimEnd(s: string): string {
    if s != "" && IsSpace(s[|s| - 1]) then TrimEnd(s[..|s| - 1]) else s
  }

  function Trim(s: string): string {
    TrimEnd(TrimStart(s))
  }

  predicate Trimmed(s: string) {
    s == "" || (!IsSpace(s[0]) && !IsSpace(s[|s| - 1]))
  }

  lemma TrimKeepsTrimmed(s: string)
    requires Trimmed(s)
    ensures Trim(s) == s
  {
  }

  lemma {:induction false} TrimDropsLeadingSpace(s: string)
    requires Trimmed(s)
    ensures Trim(" " + s) == s
  {
    assert (" " + s)[1..] == s;
    assert TrimStart(" " + s) == TrimStart(s) == s;
  }

  // Trim removes a run of spaces from each end and nothing else.
  lemma {:induction false} TrimStartSplits(s: string) returns (k: nat)
    ensures k <= |s| && TrimStart(s) == s[k..]
    ensures forall i | 0 <= i < k :: IsSpace(s[i])
    ensures k < |s| ==> !IsSpace(s[k])
  {
    k := 0;
    if s != "" && IsSpace(s[0]) {
      var m := TrimStartSplits(s[1..]);
      assert forall i | 1 <= i <= m :: s[i] == s[1..][i - 1];
      k := m + 1;
    }
  }

  lemma {:induction false} TrimEndSplits(s: string) returns (k: nat)
    ensures k <= |s| && TrimEnd(s) == s[..k]
    ensures forall i | k <= i < |s| :: IsSpace(s[i])
    ensures k > 0 ==> !IsSpace(s[k - 1])
  {
    k := |s|;
    if s != "" && IsSpace(s[|s| - 1]) {
      var t := s[..|s| - 1];
      k := TrimEndSplits(t);
      assert t[..k] == s[..k] && forall i | 0 <= i < |t| :: s[i] == t[i];
    }
  }
}
