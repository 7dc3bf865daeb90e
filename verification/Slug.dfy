/** Org slugs: `slugify` and the search for a free slug at signup. */
module Slug {
  import opened Text
  import opened Decimal

  predicate Alnum(c: char) { 'a' <= c <= 'z' || '0' <= c <= '9' }

  // ---- slugify ------------------------------------------------------------------------------

  function DropOther(s: string): (r: string)
    ensures |r| <= |s|
    ensures r == "" || Alnum(r[0])
    ensures s != "" && !Alnum(s[0]) ==> |r| < |s|
  {
    if s != "" && !Alnum(s[0]) then DropOther(s[1..]) else s
  }

  // replace(/[^a-z0-9]+/g, "-")
  function Collapse(s: string): string
    decreases |s|
  {
    if s == "" then ""
    else if Alnum(s[0]) then [s[0]] + Collapse(s[1..])
    else "-" + Collapse(DropOther(s))
  }

  function StripFront(s: string): string {
    if s != "" && s[0] == '-' then StripFront(s[1..]) else s
  }

  function StripBack(s: string): string {
    if s != "" && s[|s| - 1] == '-' then StripBack(s[..|s| - 1]) else s
  }

  // `lower` is the host language's toLowerCase.
  function Slugify(name: string, lower: string -> string): string {
    var slug := StripBack(StripFront(Collapse(lower(name))));
    if slug == "" then "org" else slug
  }

  // ---- What slugify means: the words of the name, joined by single hyphens --------------------

  function RunLength(s: string): (n: nat)
    ensures n <= |s|
    ensures forall i | 0 <= i < n :: Alnum(s[i])
    ensures n < |s| ==> !Alnum(s[n])
  {
    if s != "" && Alnum(s[0]) then 1 + RunLength(s[1..]) else 0
  }

  predicate Word(w: string) { w != "" && forall i | 0 <= i < |w| :: Alnum(w[i]) }

  predicate AllWords(ws: seq<string>) { forall k | 0 <= k < |ws| :: Word(ws[k]) }

  // The maximal runs of letters and digits.
  function Words(s: string): (ws: seq<string>)
    ensures AllWords(ws)
    decreases |s|
  {
    if s == "" then []
    else if Alnum(s[0]) then [s[..RunLength(s)]] + Words(s[RunLength(s)..])
    else Words(s[1..])
  }

  lemma {:induction false} WordsDropOther(s: string)
    ensures Words(DropOther(s)) == Words(s)
  {
    if s != "" && !Alnum(s[0]) {
      WordsDropOther(s[1..]);
    }
  }

  lemma {:induction false} CollapseRun(s: string)
    ensures Collapse(s) == s[..RunLength(s)] + Collapse(s[RunLength(s)..])
  {
    if s != "" && Alnum(s[0]) {
      CollapseRun(s[1..]);
      assert s[1..][RunLength(s[1..])..] == s[RunLength(s)..];
      assert s[..RunLength(s)] == [s[0]] + s[1..][..RunLength(s[1..])];
    }
  }

  lemma {:induction false} OneHyphen(s: string)
    requires Words(s) == []
    ensures Collapse(s) == if s == "" then "" else "-"
  {
    if s != "" {
      assert !Alnum(s[0]);
      WordsDropOther(s);
      assert DropOther(s) == "";
    }
  }

  lemma {:induction false} FirstWord(s: string)
    requires s != "" && Alnum(s[0])
    ensures var w, rest := s[..RunLength(s)], s[RunLength(s)..];
            && Collapse(s) == w + Collapse(rest)
            && Join(Words(s), "-") == if Words(rest) == [] then w else w + "-" + Join(Words(rest), "-")
  {
    CollapseRun(s);
    var w, rest := s[..RunLength(s)], s[RunLength(s)..];
    assert Words(s) == [w] + Words(rest);
    assert Words(s)[1..] == Words(rest);
  }

  // Up to one hyphen at either end, collapsing a text joins its words.
  ghost predicate Hyphenates(s: string, lead: string, trail: string) {
    && lead == (if s != "" && !Alnum(s[0]) then "-" else "")
    && trail in {"", "-"}
    && Collapse(s) == lead + Join(Words(s), "-") + trail
  }

  lemma {:induction false} SeparatorFirst(s: string, trail: string)
    requires s != "" && !Alnum(s[0]) && Hyphenates(DropOther(s), "", trail)
    ensures Hyphenates(s, "-", trail)
  {
    WordsDropOther(s);
    var j := Join(Words(s), "-");
    assert "-" + ("" + j + trail) == "-" + j + trail;
  }

  lemma {:induction false} LastWord(s: string)
    requires s != "" && Alnum(s[0]) && Words(s[RunLength(s)..]) == []
    ensures Hyphenates(s, "", Collapse(s[RunLength(s)..]))
  {
    hide Collapse, Words, Join, RunLength;
    FirstWord(s);
    OneHyphen(s[RunLength(s)..]);
    var j, t := Join(Words(s), "-"), Collapse(s[RunLength(s)..]);
    assert "" + j + t == j + t;
  }

  lemma Regroup(w: string, j: string, t: string)
    ensures w + ("-" + j + t) == "" + (w + "-" + j) + t
  {
  }

  lemma {:induction false} WordThenMore(s: string, trail: string)
    requires s != "" && Alnum(s[0]) && Words(s[RunLength(s)..]) != []
    requires Hyphenates(s[RunLength(s)..], "-", trail)
    ensures Hyphenates(s, "", trail)
  {
    hide Collapse, Words, Join, RunLength;
    FirstWord(s);
    Regroup(s[..RunLength(s)], Join(Words(s[RunLength(s)..]), "-"), trail);
  }

  lemma {:induction false} CollapseJoinsWords(s: string) returns (lead: string, trail: string)
    ensures Hyphenates(s, lead, trail)
    decreases |s|
  {
    if s == "" {
      lead, trail := "", "";
    } else if !Alnum(s[0]) {
      lead, trail := CollapseJoinsWords(DropOther(s));
      SeparatorFirst(s, trail);
      lead := "-";
    } else if Words(s[RunLength(s)..]) == [] {
      LastWord(s);
      lead, trail := "", Collapse(s[RunLength(s)..]);
    } else {
      lead, trail := CollapseJoinsWords(s[RunLength(s)..]);
      WordThenMore(s, trail);
      lead := "";
    }
  }

  lemma {:induction false} JoinedWordsEnds(ws: seq<string>)
    requires AllWords(ws)
    ensures var j := Join(ws, "-"); ws != [] ==> j != "" && Alnum(j[0]) && Alnum(j[|j| - 1])
  {
    if |ws| > 1 {
      JoinedWordsEnds(ws[1..]);
    }
  }

  lemma {:induction false} StripEnds(lead: string, core: string, trail: string)
    requires lead in {"", "-"} && trail in {"", "-"}
    requires core != "" ==> Alnum(core[0]) && Alnum(core[|core| - 1])
    ensures StripBack(StripFront(lead + core + trail)) == core
  {
    var s := lead + core + trail;
    if core == "" {
      assert s == lead + trail;
    } else {
      assert StripFront(core + trail) == core + trail;
      assert lead == "-" ==> s[1..] == core + trail;
      assert lead == "" ==> s == core + trail;
      assert trail == "-" ==> (core + trail)[..|core|] == core;
      assert trail == "" ==> core + trail == core;
      assert StripBack(core) == core;
    }
  }

  // slugify is the words of the lower-cased name joined by hyphens, or "org" when it has none.
  lemma {:induction false} SlugifyJoinsWords(name: string, lower: string -> string)
    ensures Slugify(name, lower) == if Words(lower(name)) == [] then "org" else Join(Words(lower(name)), "-")
  {
    var s := lower(name);
    var lead, trail := CollapseJoinsWords(s);
    JoinedWordsEnds(Words(s));
    StripEnds(lead, Join(Words(s), "-"), trail);
  }

  // ---- The shape of a slug ----------------------------------------------------------------------

  predicate SlugShape(s: string) {
    && s != "" && s[0] != '-' && s[|s| - 1] != '-'
    && (forall i | 0 <= i < |s| :: 'a' <= s[i] <= 'z' || '0' <= s[i] <= '9' || s[i] == '-')
    && (forall i | 0 <= i < |s| - 1 :: s[i] != '-' || s[i + 1] != '-')
  }

  lemma {:induction false} PrependWordShape(w: string, rest: string)
    requires Word(w) && SlugShape(rest)
    ensures SlugShape(w + "-" + rest)
  {
    var s := w + "-" + rest;
    forall i | 0 <= i < |s| - 1 ensures s[i] != '-' || s[i + 1] != '-' {
      if i > |w| {
        assert s[i] == rest[i - |w| - 1] && s[i + 1] == rest[i - |w|];
      }
    }
  }

  lemma {:induction false} JoinedWordsShape(ws: seq<string>)
    requires ws != []
    requires AllWords(ws)
    ensures SlugShape(Join(ws, "-"))
  {
    assert Word(ws[0]);
    if |ws| > 1 {
      JoinedWordsShape(ws[1..]);
      PrependWordShape(ws[0], Join(ws[1..], "-"));
    }
  }

  // Only [a-z0-9-], never empty, no leading, trailing or doubled hyphen.
  lemma {:induction false} SlugifyShape(name: string, lower: string -> string)
    ensures SlugShape(Slugify(name, lower))
  {
    SlugifyJoinsWords(name, lower);
    if Words(lower(name)) != [] {
      JoinedWordsShape(Words(lower(name)));
    }
  }

  lemma {:induction false} CollapseKeeps(s: string)
    requires forall i | 0 <= i < |s| :: Alnum(s[i]) || s[i] == '-'
    requires forall i | 0 <= i < |s| - 1 :: s[i] != '-' || s[i + 1] != '-'
    ensures Collapse(s) == s
    decreases |s|
  {
    if s != "" {
      CollapseKeeps(s[1..]);
      assert s == [s[0]] + s[1..];
      if !Alnum(s[0]) && |s| > 1 {
        assert DropOther(s) == DropOther(s[1..]) == s[1..];
      }
    }
  }

  // A slug is its own slug.
  lemma {:induction false} SlugifyIdempotent(name: string, lower: string -> string)
    requires forall s {:trigger lower(s)} :: SlugShape(s) ==> lower(s) == s
    ensures Slugify(Slugify(name, lower), lower) == Slugify(name, lower)
  {
    SlugifyShape(name, lower);
    CollapseKeeps(Slugify(name, lower));
  }

  // ---- The search for a free slug -------------------------------------------------------------

  // base, base-1, base-2, ...
  function Candidate(base: string, k: nat): string {
    if k == 0 then base else base + "-" + NatText(k)
  }

  lemma {:induction false} CandidateInjective(base: string, j: nat, k: nat)
    requires Candidate(base, j) == Candidate(base, k)
    ensures j == k
  {
    if j > 0 && k > 0 {
      assert Candidate(base, j)[|base| + 1..] == NatText(j);
      assert Candidate(base, k)[|base| + 1..] == NatText(k);
      NatTextInjective(j, k);
    }
  }

  ghost function Tried(base: string, n: nat): (s: set<string>)
    ensures forall k | 0 <= k < n :: Candidate(base, k) in s
    ensures forall c | c in s :: exists k | 0 <= k < n :: Candidate(base, k) == c
  {
    if n == 0 then {} else Tried(base, n - 1) + {Candidate(base, n - 1)}
  }

  lemma {:induction false} TriedSize(base: string, n: nat)
    ensures |Tried(base, n)| == n
  {
    if n > 0 {
      TriedSize(base, n - 1);
      if Candidate(base, n - 1) in Tried(base, n - 1) {
        var k :| 0 <= k < n - 1 && Candidate(base, k) == Candidate(base, n - 1);
        CandidateInjective(base, k, n - 1);
        assert false;
      }
    }
  }

  lemma {:induction false} SubsetSize<T>(a: set<T>, b: set<T>)
    requires a <= b
    ensures |a| <= |b|
  {
    assert b == a + (b - a);
  }

  // Pigeonhole: n taken candidates need n orgs.
  lemma {:induction false} CollisionsBounded(taken: set<string>, base: string, n: nat)
    requires forall k | 0 <= k < n :: Candidate(base, k) in taken
    ensures n <= |taken|
  {
    TriedSize(base, n);
    forall c | c in Tried(base, n) ensures c in taken {
      var k :| 0 <= k < n && Candidate(base, k) == c;
    }
    SubsetSize(Tried(base, n), taken);
  }

  predicate FirstFree(taken: set<string>, base: string, k: nat) {
    Candidate(base, k) !in taken && forall j | 0 <= j < k :: Candidate(base, j) in taken
  }

  // The while loop of attemptSignup: it ends after at most |taken| collisions with the first free candidate.
  method FindFreeSlug(taken: set<string>, base: string) returns (slug: string, suffix: nat)
    ensures slug == (if suffix == 0 then base else base + "-" + NatText(suffix)) && FirstFree(taken, base, suffix)
    ensures suffix <= |taken|
    ensures slug == FreeSlug(taken, base)
  {
    slug, suffix := base, 0;
    while slug in taken
      invariant slug == Candidate(base, suffix)
      invariant forall k | 0 <= k < suffix :: Candidate(base, k) in taken
      decreases |taken| - suffix
    {
      CollisionsBounded(taken, base, suffix + 1);
      suffix := suffix + 1;
      slug := base + "-" + NatText(suffix);
    }
    CollisionsBounded(taken, base, suffix);
    FirstFreeUnique(taken, base, suffix, FreeSuffix(taken, base));
  }

  // The suffix the loop finds, as a function.
  function FreeSuffix(taken: set<string>, base: string, from: nat := 0): (k: nat)
    requires forall j | 0 <= j < from :: Candidate(base, j) in taken
    ensures FirstFree(taken, base, k)
    decreases |taken| - from
  {
    if Candidate(base, from) !in taken then from
    else
      CollisionsBounded(taken, base, from + 1);
      FreeSuffix(taken, base, from + 1)
  }

  // The slug attemptSignup settles on.
  function FreeSlug(taken: set<string>, base: string): string {
    Candidate(base, FreeSuffix(taken, base))
  }

  lemma {:induction false} FirstFreeUnique(taken: set<string>, base: string, j: nat, k: nat)
    requires FirstFree(taken, base, j) && FirstFree(taken, base, k)
    ensures j == k
  {
    assert j < k ==> Candidate(base, j) in taken;
  }
}
