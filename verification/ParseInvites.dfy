/** The bulk-invite box: one "Name, email[, role]" per line. */
module ParseInvites {
  import opened Text
  import opened Decimal

  datatype Invite = Invite(displayName: string, email: string, role: string)

  datatype Outcome = Blank | Good(invite: Invite) | Bad(message: string)

  const ROLES := {"VIEWER", "EDITOR", "ADMIN"}

  // toUpperCase of the host language.
  type Upper = string -> string

  function TrimAll(parts: seq<string>): (r: seq<string>)
    ensures |r| == |parts|
    ensures forall i | 0 <= i < |parts| :: r[i] == Trim(parts[i])
  {
    if parts == [] then [] else [Trim(parts[0])] + TrimAll(parts[1..])
  }

  function LineLabel(n: nat): string { "line " + NatText(n) + ": " }

  // What line number n of the text comes to. A missing role is VIEWER; an empty one is not.
  function OutcomeOf(raw: string, n: nat, upper: Upper): Outcome {
    var line := Trim(raw);
    if line == "" then Blank
    else
      var parts := TrimAll(Split(line, ','));
      if parts[0] == "" || |parts| < 2 || '@' !in parts[1] then Bad(LineLabel(n) + "expected \"Name, email[, role]\"")
      else
        var role := upper(if |parts| > 2 then parts[2] else "VIEWER");
        if role !in ROLES then Bad(LineLabel(n) + "role must be VIEWER, EDITOR or ADMIN")
        else Good(Invite(parts[0], parts[1], role))
  }

  function Outcomes(lines: seq<string>, upper: Upper): (os: seq<Outcome>)
    ensures |os| == |lines|
    ensures forall i | 0 <= i < |lines| :: os[i] == OutcomeOf(lines[i], i + 1, upper)
  {
    if lines == [] then []
    else
      var n := |lines| - 1;
      Outcomes(lines[..n], upper) + [OutcomeOf(lines[n], n + 1, upper)]
  }

  function InvitesOf(os: seq<Outcome>): seq<Invite> {
    if os == [] then []
    else
      var last := os[|os| - 1];
      InvitesOf(os[..|os| - 1]) + (if last.Good? then [last.invite] else [])
  }

  function MessagesOf(os: seq<Outcome>): seq<string> {
    if os == [] then []
    else
      var last := os[|os| - 1];
      MessagesOf(os[..|os| - 1]) + (if last.Bad? then [last.message] else [])
  }

  method Parse(text: string, upper: Upper) returns (invites: seq<Invite>, errors: seq<string>)
    ensures invites == InvitesOf(Outcomes(Split(text, '\n'), upper))
    ensures errors == MessagesOf(Outcomes(Split(text, '\n'), upper))
  {
    hide Trim, Split, NatText;
    invites, errors := [], [];
    var lines := Split(text, '\n');
    for i := 0 to |lines|
      invariant invites == InvitesOf(Outcomes(lines[..i], upper))
      invariant errors == MessagesOf(Outcomes(lines[..i], upper))
    {
      assert lines[..i + 1][..i] == lines[..i];
      ghost var os := Outcomes(lines[..i + 1], upper);
      assert os[..i] == Outcomes(lines[..i], upper) && os[i] == OutcomeOf(lines[i], i + 1, upper);
      var line := Trim(lines[i]);
      if line == "" {
        continue;
      }
      var parts := TrimAll(Split(line, ','));
      var displayName := parts[0];
      if displayName == "" || |parts| < 2 || '@' !in parts[1] {
        errors := errors + ["line " + NatText(i + 1) + ": " + "expected \"Name, email[, role]\""];
        continue;
      }
      var email := parts[1];
      var role := "VIEWER";
      if |parts| > 2 {
        role := parts[2];
      }
      if upper(role) !in ROLES {
        errors := errors + ["line " + NatText(i + 1) + ": " + "role must be VIEWER, EDITOR or ADMIN"];
        continue;
      }
      invites := invites + [Invite(displayName, email, upper(role))];
    }
    assert lines[..|lines|] == lines;
  }

  // ---- Every line is accounted for ----------------------------------------------------------------

  function NonBlank(lines: seq<string>): nat {
    if lines == [] then 0 else NonBlank(lines[..|lines| - 1]) + (if Trim(lines[|lines| - 1]) == "" then 0 else 1)
  }

  // Each non-blank line yields exactly one invite or one error.
  lemma {:induction false} LinesAccountedFor(lines: seq<string>, upper: Upper)
    ensures |InvitesOf(Outcomes(lines, upper))| + |MessagesOf(Outcomes(lines, upper))| == NonBlank(lines)
    decreases |lines|
  {
    if lines != [] {
      var n := |lines| - 1;
      LinesAccountedFor(lines[..n], upper);
      assert Outcomes(lines, upper)[..n] == Outcomes(lines[..n], upper);
    }
  }

  lemma {:induction false} LabelInjective(m: nat, n: nat, rest1: string, rest2: string)
    requires LineLabel(m) + rest1 == LineLabel(n) + rest2
    ensures m == n
  {
    var s := LineLabel(m) + rest1;
    assert s[5..] == NatText(m) + [':'] + (" " + rest1);
    assert s[5..] == NatText(n) + [':'] + (" " + rest2);
    IndexOfField(NatText(m), ':', " " + rest1);
    IndexOfField(NatText(n), ':', " " + rest2);
    assert s[5..][..|NatText(m)|] == NatText(m) && s[5..][..|NatText(n)|] == NatText(n);
    NatTextInjective(m, n);
  }

  lemma {:induction false} OutcomesPrefix(lines: seq<string>, upper: Upper, i: nat)
    requires i <= |lines|
    ensures Outcomes(lines, upper)[..i] == Outcomes(lines[..i], upper)
  {
    hide Outcomes, OutcomeOf;
  }

  // Where message k comes from: the line it names, with k bad lines before it.
  lemma {:induction false} MessageLine(os: seq<Outcome>, k: nat) returns (i: nat)
    requires k < |MessagesOf(os)|
    ensures i < |os| && os[i].Bad? && MessagesOf(os)[k] == os[i].message && |MessagesOf(os[..i])| == k
    decreases |os|
  {
    var n := |os| - 1;
    if k < |MessagesOf(os[..n])| {
      i := MessageLine(os[..n], k);
      assert os[..n][..i] == os[..i];
    } else {
      i := n;
    }
  }

  // Likewise invite k.
  lemma {:induction false} InviteLine(os: seq<Outcome>, k: nat) returns (i: nat)
    requires k < |InvitesOf(os)|
    ensures i < |os| && os[i] == Good(InvitesOf(os)[k]) && |InvitesOf(os[..i])| == k
    decreases |os|
  {
    var n := |os| - 1;
    if k < |InvitesOf(os[..n])| {
      i := InviteLine(os[..n], k);
      assert os[..n][..i] == os[..i];
    } else {
      i := n;
    }
  }

  // Every error names the 1-based number n of its own line, and is error k after k bad lines: so errors come in
  // line order, one to a line.
  lemma {:induction false} ErrorsNameTheirLines(lines: seq<string>, upper: Upper, k: nat) returns (n: nat)
    requires k < |MessagesOf(Outcomes(lines, upper))|
    ensures 1 <= n <= |lines| && OutcomeOf(lines[n - 1], n, upper).Bad?
    ensures MessagesOf(Outcomes(lines, upper))[k] == OutcomeOf(lines[n - 1], n, upper).message
    ensures StartsWith(MessagesOf(Outcomes(lines, upper))[k], LineLabel(n))
    ensures |MessagesOf(Outcomes(lines[..n - 1], upper))| == k
  {
    hide LineLabel, MessagesOf, OutcomeOf, StartsWith;
    var i := MessageLine(Outcomes(lines, upper), k);
    OutcomesPrefix(lines, upper, i);
    BadIsLabelled(lines[i], i + 1, upper);
    n := i + 1;
  }

  // Every invite is the one its own line reads as, and is invite k after k good lines.
  lemma {:induction false} InvitesKeepLineOrder(lines: seq<string>, upper: Upper, k: nat) returns (n: nat)
    requires k < |InvitesOf(Outcomes(lines, upper))|
    ensures 1 <= n <= |lines| && OutcomeOf(lines[n - 1], n, upper) == Good(InvitesOf(Outcomes(lines, upper))[k])
    ensures |InvitesOf(Outcomes(lines[..n - 1], upper))| == k
  {
    hide InvitesOf, OutcomeOf;
    var i := InviteLine(Outcomes(lines, upper), k);
    OutcomesPrefix(lines, upper, i);
    n := i + 1;
  }

  lemma {:induction false} OutcomeAt(os: seq<Outcome>, i: nat)
    requires i < |os|
    ensures var m, v := |MessagesOf(os[..i])|, |InvitesOf(os[..i])|;
            && (os[i].Bad? ==> m < |MessagesOf(os)| && MessagesOf(os)[m] == os[i].message)
            && (os[i].Good? ==> v < |InvitesOf(os)| && InvitesOf(os)[v] == os[i].invite)
    decreases |os|
  {
    var n := |os| - 1;
    if i < n {
      assert os[..n][..i] == os[..i];
      OutcomeAt(os[..n], i);
    }
  }

  // Line by line: a blank line yields nothing, and any other either the invite after those of the good lines
  // before it, or the error after those of the bad lines before it.
  lemma {:induction false} LineYieldsOne(lines: seq<string>, upper: Upper, n: nat)
    requires 1 <= n <= |lines|
    ensures var outcome := OutcomeOf(lines[n - 1], n, upper);
            var invites, errors := InvitesOf(Outcomes(lines, upper)), MessagesOf(Outcomes(lines, upper));
            var v := |InvitesOf(Outcomes(lines[..n - 1], upper))|;
            var m := |MessagesOf(Outcomes(lines[..n - 1], upper))|;
            && (outcome.Blank? <==> Trim(lines[n - 1]) == "")
            && (outcome.Good? ==> v < |invites| && invites[v] == outcome.invite)
            && (outcome.Bad? ==> m < |errors| && errors[m] == outcome.message && StartsWith(errors[m], LineLabel(n)))
  {
    BlankIff(lines[n - 1], n, upper);
    hide LineLabel, MessagesOf, InvitesOf, OutcomeOf, Trim, StartsWith;
    OutcomesPrefix(lines, upper, n - 1);
    OutcomeAt(Outcomes(lines, upper), n - 1);
    if OutcomeOf(lines[n - 1], n, upper).Bad? { BadIsLabelled(lines[n - 1], n, upper); }
  }

  lemma {:induction false} BlankIff(raw: string, n: nat, upper: Upper)
    ensures OutcomeOf(raw, n, upper).Blank? <==> Trim(raw) == ""
  {
    hide LineLabel, Trim, Split;
  }

  lemma {:induction false} BadIsLabelled(raw: string, n: nat, upper: Upper)
    requires OutcomeOf(raw, n, upper).Bad?
    ensures StartsWith(OutcomeOf(raw, n, upper).message, LineLabel(n))
  {
    hide LineLabel, Trim, Split;
  }

  // ---- Printing and parsing ---------------------------------------------------------------------------

  predicate CleanField(s: string) { s != "" && Trimmed(s) && ',' !in s && '\n' !in s }

  predicate Printable(v: Invite) {
    CleanField(v.displayName) && CleanField(v.email) && '@' in v.email && v.role in ROLES
  }

  function PrintInvite(v: Invite): string { v.displayName + ", " + v.email + ", " + v.role }

  function PrintAll(vs: seq<Invite>): (lines: seq<string>)
    ensures |lines| == |vs|
    ensures forall i | 0 <= i < |vs| :: lines[i] == PrintInvite(vs[i])
  {
    if vs == [] then [] else [PrintInvite(vs[0])] + PrintAll(vs[1..])
  }

  lemma RolesClean(role: string)
    requires role in ROLES
    ensures CleanField(role)
  {
  }

  lemma {:induction false} PrintedFields(v: Invite)
    requires Printable(v)
    ensures Trim(PrintInvite(v)) == PrintInvite(v) != "" && '\n' !in PrintInvite(v)
    ensures Split(PrintInvite(v), ',') == [v.displayName, " " + v.email, " " + v.role]
  {
    RolesClean(v.role);
    var line := PrintInvite(v);
    assert line[0] == v.displayName[0] && line[|line| - 1] == v.role[|v.role| - 1];
    TrimKeepsTrimmed(line);
    var tail := " " + v.email + [','] + (" " + v.role);
    assert line == v.displayName + [','] + tail;
    SplitField(v.displayName, ',', tail);
    SplitField(" " + v.email, ',', " " + v.role);
    SplitAtom(" " + v.role, ',');
  }

  lemma {:induction false} PrintedLineParses(v: Invite, n: nat, upper: Upper)
    requires Printable(v) && forall r | r in ROLES :: upper(r) == r
    ensures OutcomeOf(PrintInvite(v), n, upper) == Good(v)
  {
    hide Trim, Split, PrintInvite;
    PrintedFields(v);
    RolesClean(v.role);
    TrimKeepsTrimmed(v.displayName);
    TrimDropsLeadingSpace(v.email);
    TrimDropsLeadingSpace(v.role);
    var parts := TrimAll([v.displayName, " " + v.email, " " + v.role]);
    assert parts[0] == v.displayName && parts[1] == v.email && parts[2] == v.role;
  }

  // Without a role a line invites a viewer.
  lemma {:induction false} NoRoleIsViewer(v: Invite, n: nat, upper: Upper)
    requires Printable(v) && upper("VIEWER") == "VIEWER"
    ensures OutcomeOf(v.displayName + ", " + v.email, n, upper) == Good(Invite(v.displayName, v.email, "VIEWER"))
  {
    var line := v.displayName + ", " + v.email;
    assert line[0] == v.displayName[0] && line[|line| - 1] == v.email[|v.email| - 1];
    TrimKeepsTrimmed(line);
    assert line == v.displayName + [','] + (" " + v.email);
    SplitField(v.displayName, ',', " " + v.email);
    SplitAtom(" " + v.email, ',');
    TrimKeepsTrimmed(v.displayName);
    TrimDropsLeadingSpace(v.email);
    hide Trim, Split;
    var parts := TrimAll([v.displayName, " " + v.email]);
    assert parts[0] == v.displayName && parts[1] == v.email;
  }

  // What a line must be to invite anybody, and what it is told otherwise.
  lemma {:induction false} LineMeans(raw: string, n: nat, upper: Upper)
    ensures var outcome, fields := OutcomeOf(raw, n, upper), Split(Trim(raw), ',');
            var named := Trim(fields[0]) != "" && |fields| >= 2 && '@' in Trim(fields[1]);
            var role := upper(if |fields| > 2 then Trim(fields[2]) else "VIEWER");
            && (outcome.Good? <==> Trim(raw) != "" && named && role in {"VIEWER", "EDITOR", "ADMIN"})
            && (outcome.Good? ==> outcome.invite == Invite(Trim(fields[0]), Trim(fields[1]), role))
            && (outcome == Bad("line " + NatText(n) + ": " + "expected \"Name, email[, role]\"") <==>
                Trim(raw) != "" && !named)
            && (outcome == Bad("line " + NatText(n) + ": " + "role must be VIEWER, EDITOR or ADMIN")
                <==> Trim(raw) != "" && named && role !in {"VIEWER", "EDITOR", "ADMIN"})
  {
    MessagesDiffer(n);
    hide Trim, Split, NatText;
  }

  lemma {:induction false} MessagesDiffer(n: nat)
    ensures LineLabel(n) == "line " + NatText(n) + ": "
    ensures LineLabel(n) + "expected \"Name, email[, role]\"" != LineLabel(n) + "role must be VIEWER, EDITOR or ADMIN"
  {
    hide NatText;
    var prefix := LineLabel(n);
    assert (prefix + "expected \"Name, email[, role]\"")[|prefix|] == 'e';
    assert (prefix + "role must be VIEWER, EDITOR or ADMIN")[|prefix|] == 'r';
  }

  lemma {:induction false} AllGood(os: seq<Outcome>, vs: seq<Invite>)
    requires |os| == |vs| && forall i | 0 <= i < |vs| :: os[i] == Good(vs[i])
    ensures InvitesOf(os) == vs && MessagesOf(os) == []
    decreases |os|
  {
    if os != [] {
      AllGood(os[..|os| - 1], vs[..|vs| - 1]);
    }
  }

  lemma {:induction false} NothingParses(upper: Upper)
    ensures InvitesOf(Outcomes(Split("", '\n'), upper)) == [] && MessagesOf(Outcomes(Split("", '\n'), upper)) == []
  {
    var os := Outcomes([""], upper);
    assert os == [Blank] && os[..0] == [];
  }

  // Printing invites one per line and parsing the text gives the same invites and no errors.
  lemma {:induction false} PrintThenParse(vs: seq<Invite>, upper: Upper)
    requires forall v | v in vs :: Printable(v)
    requires forall r | r in ROLES :: upper(r) == r
    ensures var os := Outcomes(Split(Join(PrintAll(vs), "\n"), '\n'), upper);
            InvitesOf(os) == vs && MessagesOf(os) == []
  {
    var lines := PrintAll(vs);
    if vs == [] {
      NothingParses(upper);
    } else {
      hide OutcomeOf, PrintInvite, MessagesOf, InvitesOf, Split, Join;
      forall i | 0 <= i < |vs| ensures '\n' !in lines[i] && OutcomeOf(lines[i], i + 1, upper) == Good(vs[i]) {
        PrintedFields(vs[i]);
        PrintedLineParses(vs[i], i + 1, upper);
      }
      SplitOfJoin(lines, '\n');
      AllGood(Outcomes(lines, upper), vs);
    }
  }
}
