/** Deleting a job's output: `deletePrefix` over a paged object store, and deleteJob on top of it. */
module ObjectStore {
  import opened Wrappers
  import opened Text
  import opened Ordering
  import Hls
  import TranscodeJob

  function Keep(s: seq<string>, p: string -> bool): (r: seq<string>)
    ensures forall k :: k in r <==> k in s && p(k)
    ensures |r| <= |s|
  {
    if s == [] then [] else (if p(s[0]) then [s[0]] else []) + Keep(s[1..], p)
  }

  predicate Below(a: string, b: string) { a != b && LexLe(a, b) }

  predicate Ascending(s: seq<string>) { forall i, j | 0 <= i < j < |s| :: Below(s[i], s[j]) }

  lemma {:induction false} KeepAscends(s: seq<string>, p: string -> bool)
    requires Ascending(s)
    ensures Ascending(Keep(s, p))
  {
    if s != [] {
      KeepAscends(s[1..], p);
      var rest := Keep(s[1..], p);
      forall j | 0 <= j < |rest| ensures Below(s[0], rest[j]) {
        assert rest[j] in s[1..];
      }
    }
  }

  // Dropping some of the keys of an ascending listing shortens it by exactly that many.
  lemma {:induction false} KeepCount(s: seq<string>, gone: seq<string>)
    requires Ascending(s) && Ascending(gone) && forall k | k in gone :: k in s
    ensures |Keep(s, k => k !in gone)| == |s| - |gone|
    decreases |s|
  {
    assert gone != [] ==> gone[0] in s;
    if s == [] {
    } else if s[0] in gone {
      var i :| 0 <= i < |gone| && gone[i] == s[0];
      assert gone[0] in s;
      var j :| 0 <= j < |s| && s[j] == gone[0];
      if i > 0 {
        assert Below(gone[0], gone[i]) && (j == 0 || Below(s[0], s[j]));
        LexAntisymmetric(gone[0], gone[i]);
        assert false;
      }
      forall k | k in gone[1..] ensures k in s[1..] { AscendingTail(gone, s, k); }
      KeepCount(s[1..], gone[1..]);
      KeepSame(s[1..], k => k !in gone, k => k !in gone[1..], s, gone);
    } else {
      KeepCount(s[1..], gone);
    }
  }

  lemma {:induction false} AscendingTail(gone: seq<string>, s: seq<string>, k: string)
    requires gone != [] && s != [] && Ascending(gone) && gone[0] == s[0] && k in gone[1..] && k in s
    ensures k in s[1..]
  {
    var i :| 0 <= i < |gone| - 1 && gone[1..][i] == k;
    assert Below(gone[0], gone[i + 1]);
    var j :| 0 <= j < |s| && s[j] == k;
    assert s[1..][j - 1] == k;
  }

  lemma {:induction false} KeepSame(t: seq<string>, p: string -> bool, q: string -> bool, s: seq<string>,
                                    gone: seq<string>)
    requires s != [] && gone != [] && gone[0] == s[0] && Ascending(s)
    requires forall k | k in t :: k in s[1..]
    requires forall k :: p(k) == (k !in gone) && q(k) == (k !in gone[1..])
    ensures Keep(t, p) == Keep(t, q)
  {
    if t != [] {
      assert t[0] in s[1..];
      var i :| 0 <= i < |s| - 1 && s[1..][i] == t[0];
      assert Below(s[0], s[i + 1]);
      assert t[0] in gone <==> t[0] in gone[1..] by {
        if t[0] in gone {
          var j :| 0 <= j < |gone| && gone[j] == t[0];
          assert gone[1..][j - 1] == t[0];
        }
      }
      KeepSame(t[1..], p, q, s, gone);
    }
  }

  lemma {:induction false} KeepAll(s: seq<string>, p: string -> bool)
    ensures |Keep(s, p)| == |s| <==> forall k | k in s :: p(k)
  {
    if s != [] {
      KeepAll(s[1..], p);
      assert forall k | k in s[1..] :: k in s;
    }
  }

  lemma {:induction false} BelowTransitive(a: string, b: string, c: string)
    requires Below(a, b) && Below(b, c)
    ensures Below(a, c)
  {
    LexTransitive(a, b, c);
    if a == c { LexAntisymmetric(a, b); }
  }

  function Matching(keys: seq<string>, prefix: string): set<string> {
    set k | k in keys && StartsWith(k, prefix)
  }

  predicate PastToken(token: Option<string>, k: string) { token.Some? ==> Below(token.value, k) }

  datatype Page = Page(contents: seq<string>, next: Option<string>)

  // The listing of the keys still ahead, and what is ahead after it.
  predicate Lists(page: Page, token: Option<string>, ahead: set<string>) {
    && Ascending(page.contents) && (forall k | k in page.contents :: k in ahead)
    && (page.next.None? ==> forall k | k in ahead :: k in page.contents)
    && (page.next.Some? ==>
          && page.contents != [] && page.next.value == page.contents[|page.contents| - 1]
          && forall k | k in ahead :: k in page.contents || Below(page.next.value, k))
  }

  lemma {:induction false} SmallerSet(a: set<string>, b: set<string>)
    requires a < b
    ensures |a| < |b|
  {
    assert b == a + (b - a);
    assert b - a != {};
  }

  // A page takes its own keys off those ahead, and leaves exactly those past its token.
  lemma {:induction false} PageTaken(page: Page, token: Option<string>, before: set<string>, after: set<string>,
                                     all: set<string>)
    requires Lists(page, token, before)
    requires before <= all && forall k | k in all :: k in before <==> PastToken(token, k)
    requires after == if page.next.None? then {} else set k | k in before && Below(page.next.value, k)
    ensures forall k :: k in before <==> k in page.contents || k in after
    ensures forall k | k in after :: k !in page.contents
    ensures page.next.Some? ==> after < before && |after| < |before|
    ensures page.next.Some? ==> forall k | k in all :: k in after <==> PastToken(page.next, k)
  {
    if page.next.Some? {
      var last := page.next.value;
      assert last in page.contents;
      forall k | k in page.contents ensures !Below(last, k) {
        var i :| 0 <= i < |page.contents| && page.contents[i] == k;
        if Below(last, k) { LexAntisymmetric(last, k); }
      }
      forall k | k in all && Below(last, k) ensures k in before {
        if token.Some? { BelowTransitive(token.value, last, k); }
      }
      assert last in before && last !in after;
      SmallerSet(after, before);
    }
  }

  class Store {
    const pageLimit: nat              // most keys one listing returns
    var keys: seq<string>             // in key order
    const locked: set<string>         // keys whose delete is answered with a per-key error
    var requestsLeft: nat             // requests the store answers before an outage

    ghost predicate Valid()
      reads this
    {
      pageLimit > 0 && Ascending(keys)
    }

    constructor (pageLimit: nat, locked: set<string>, requests: nat)
      requires pageLimit > 0
      ensures Valid() && keys == [] && this.locked == locked && requestsLeft == requests
    {
      this.pageLimit, this.locked := pageLimit, locked;
      keys, requestsLeft := [], requests;
    }

    // ListObjectsV2: the first keys under prefix past the continuation token, and a token when there are more.
    method ListObjects(prefix: string, after: Option<string>) returns (r: Result<Page, string>)
      requires Valid()
      modifies this`requestsLeft
      ensures r.Err? <==> old(requestsLeft) == 0
      ensures requestsLeft == if r.Ok? then old(requestsLeft) - 1 else 0
      ensures r.Ok? ==>
                && Ascending(r.value.contents)
                && (forall k | k in r.value.contents ::
                      k in keys && StartsWith(k, prefix) && (after.Some? ==> Below(after.value, k)))
                && (r.value.next.None? ==>
                      forall k | k in keys && StartsWith(k, prefix) && (after.Some? ==> Below(after.value, k)) ::
                        k in r.value.contents)
                && (r.value.next.Some? ==>
                      && r.value.contents != [] && r.value.next.value == r.value.contents[|r.value.contents| - 1]
                      && forall k | k in keys && StartsWith(k, prefix) && (after.Some? ==> Below(after.value, k)) ::
                           k in r.value.contents || Below(r.value.next.value, k))
    {
      if requestsLeft == 0 {
        return Err("object store unavailable");
      }
      requestsLeft := requestsLeft - 1;
      var matching := Keep(keys, k => StartsWith(k, prefix) && (after.Some? ==> Below(after.value, k)));
      KeepAscends(keys, k => StartsWith(k, prefix) && (after.Some? ==> Below(after.value, k)));
      if |matching| <= pageLimit {
        return Ok(Page(matching, None));
      }
      var contents := matching[..pageLimit];
      var last := contents[pageLimit - 1];
      forall k | k in matching ensures k in contents || Below(last, k) {
        var i :| 0 <= i < |matching| && matching[i] == k;
        assert i < pageLimit ==> contents[i] == k;
      }
      forall k | k in contents ensures k in matching {
        var i :| 0 <= i < |contents| && contents[i] == k;
        assert matching[i] == k;
      }
      r := Ok(Page(contents, Some(last)));
    }

    // A delete can succeed as a request and still report errors for some keys; the code does not read them.
    method DeleteObjects(gone: seq<string>) returns (ok: bool)
      requires Valid() && Ascending(gone) && forall k | k in gone :: k in keys
      modifies this`keys, this`requestsLeft
      ensures Valid()
      ensures ok ==> forall k :: k in keys <==> k in old(keys) && (k !in gone || k in locked)
      ensures ok ==> |keys| == |old(keys)| - |Keep(gone, k => k !in locked)|
      ensures !ok ==> keys == old(keys)
      ensures ok <==> old(requestsLeft) > 0
      ensures requestsLeft == if ok then old(requestsLeft) - 1 else 0
    {
      if requestsLeft == 0 {
        return false;
      }
      requestsLeft := requestsLeft - 1;
      var deleted := Keep(gone, k => k !in locked);
      KeepAscends(gone, k => k !in locked);
      KeepAscends(keys, k => k !in deleted);
      KeepCount(keys, deleted);
      keys := Keep(keys, k => k !in deleted);
      ok := true;
    }

    // The do-while of deletePrefix: it counts the keys it asked to delete.
    method DeletePrefix(prefix: string) returns (r: Result<nat, string>)
      requires Valid()
      modifies this`keys, this`requestsLeft
      ensures Valid()
      ensures r.Ok? ==> forall k :: k in keys <==> k in old(keys) && (!StartsWith(k, prefix) || k in locked)
      ensures r.Ok? ==> r.value >= |old(keys)| - |keys|
      ensures r.Ok? ==> (r.value == |old(keys)| - |keys| <==>
                forall k | k in old(keys) && StartsWith(k, prefix) :: k !in locked)
      ensures r.Err? ==> forall k | k in old(keys) && !StartsWith(k, prefix) :: k in keys
      ensures r.Err? ==> forall k | k in keys :: k in old(keys)
      ensures r.Err? ==> requestsLeft == 0
      ensures old(requestsLeft) >= 2 * |Matching(old(keys), prefix)| + 2 ==> r.Ok?
    {
      var removed: nat := 0;
      var token: Option<string> := None;
      var more := true;
      ghost var missed: nat := 0;
      ghost var ahead := Matching(keys, prefix);
      while more
        invariant Valid()
        invariant removed == |old(keys)| - |keys| + missed
        invariant ahead <= Matching(old(keys), prefix)
        invariant more ==> forall k | k in Matching(old(keys), prefix) :: k in ahead <==> PastToken(token, k)
        invariant forall k :: k in keys <==> k in old(keys) && (!StartsWith(k, prefix) || k in ahead || k in locked)
        invariant missed == 0 <==> forall k | k in Matching(old(keys), prefix) && k !in ahead :: k !in locked
        invariant !more ==> ahead == {}
        invariant more ==> requestsLeft + 2 * (|Matching(old(keys), prefix)| - |ahead|) >= old(requestsLeft)
        decreases ahead, more
      {
        var listed := ListObjects(prefix, token);
        if listed.Err? {
          return Err(listed.error);
        }
        var page := listed.value;
        ghost var before := ahead;
        ahead := if page.next.None? then {} else set k | k in before && Below(page.next.value, k);
        PageTaken(page, token, before, ahead, Matching(old(keys), prefix));
        if |page.contents| > 0 {
          KeepAll(page.contents, k => k !in locked);
          missed := missed + |page.contents| - |Keep(page.contents, k => k !in locked)|;
          var ok := DeleteObjects(page.contents);
          if !ok {
            return Err("object store unavailable");
          }
          removed := removed + |page.contents|;
        }
        token := page.next;
        more := token.Some?;
      }
      r := Ok(removed);
    }
  }

  // ---- deleteJob on the store ------------------------------------------------------------------------------

  function OutputPrefix(jobId: string): string { "processed/" + jobId + "/" }

  // Every key uploadDir stores for a job lies under the prefix that deleteJob clears for it.
  lemma {:induction false} UploadsAreCleared(jobId: string, dir: string, entries: seq<Hls.DirEntry>, key: string)
    requires forall e | e in entries :: Hls.Below(dir, e)
    requires key in Hls.KeysOf(dir, Hls.KeyPrefix(jobId), entries)
    ensures StartsWith(key, OutputPrefix(jobId))
  {
    Hls.UploadedIff(dir, Hls.KeyPrefix(jobId), entries, key);
    assert Hls.KeyPrefix(jobId) + "/" == OutputPrefix(jobId);
  }

  // Different jobs keep their output apart.
  lemma {:induction false} OutputPrefixesDisjoint(a: string, b: string, key: string)
    requires '/' !in a && '/' !in b
    requires StartsWith(key, OutputPrefix(a)) && StartsWith(key, OutputPrefix(b))
    ensures a == b
  {
    var tail := key[10..];
    assert tail == a + ['/'] + key[|OutputPrefix(a)|..] by {
      assert key == OutputPrefix(a) + key[|OutputPrefix(a)|..];
    }
    assert tail == b + ['/'] + key[|OutputPrefix(b)|..] by {
      assert key == OutputPrefix(b) + key[|OutputPrefix(b)|..];
    }
    IndexOfField(a, '/', key[|OutputPrefix(a)|..]);
    IndexOfField(b, '/', key[|OutputPrefix(b)|..]);
    assert tail[..|a|] == a && tail[..|b|] == b;
  }

  datatype Deletion = Deleted | Refused(reason: TranscodeJob.Refusal) | Failed(error: string)

  class Jobs {
    var rows: map<string, TranscodeJob.Row>
    const store: Store

    constructor (store: Store)
      ensures this.store == store && rows == map[]
    {
      this.store := store;
      rows := map[];
    }

    function Slot(id: string): TranscodeJob.RowSlot
      reads this
    {
      if id in rows then TranscodeJob.Present(rows[id]) else TranscodeJob.Deleted
    }

    // The row goes only after every listed object under its prefix was asked to go; when a request fails the row
    // stays. While nobody else writes to the store, output outlives its row exactly when the store answered for
    // some of its keys with an error; uploads of an attempt still running are the subject of TranscodeOutput.
    method DeleteJob(id: string, caller: TranscodeJob.Caller) returns (r: Deletion)
      requires store.Valid()
      modifies this`rows, store`keys, store`requestsLeft
      ensures store.Valid()
      ensures r.Refused? <==> TranscodeJob.CheckDelete(old(Slot(id)), caller).Some?
      ensures r.Refused? ==> TranscodeJob.CheckDelete(old(Slot(id)), caller) == Some(r.reason)
      ensures r.Refused? ==> rows == old(rows) && store.keys == old(store.keys)
      ensures r.Failed? ==> rows == old(rows) && store.requestsLeft == 0
      ensures old(store.requestsLeft) >= 2 * |Matching(old(store.keys), OutputPrefix(id))| + 2 ==> !r.Failed?
      ensures r.Deleted? ==> rows == old(rows) - {id}
      ensures r.Deleted? ==> forall k :: k in store.keys <==>
                k in old(store.keys) && (!StartsWith(k, OutputPrefix(id)) || k in store.locked)
      ensures r.Deleted? ==>
                ((forall k | k in store.keys :: !StartsWith(k, OutputPrefix(id))) <==>
                 forall k | k in old(store.keys) && StartsWith(k, OutputPrefix(id)) :: k !in store.locked)
      ensures forall k | k in old(store.keys) && !StartsWith(k, OutputPrefix(id)) :: k in store.keys
      ensures id in old(rows) && id !in rows ==>
                forall k | k in store.keys && StartsWith(k, OutputPrefix(id)) :: k in store.locked
    {
      if id !in rows {
        return Refused(TranscodeJob.NotFound);
      }
      var row := rows[id];
      if row.orgId != caller.orgId {
        return Refused(TranscodeJob.NotFound);
      }
      if !TranscodeJob.CanModify(caller, row) {
        return Refused(TranscodeJob.PermissionDenied);
      }
      if row.state.Queued? || row.state.Processing? {
        return Refused(TranscodeJob.FailedPrecondition);
      }
      var cleared := store.DeletePrefix("processed/" + id + "/");
      if cleared.Err? {
        return Failed(cleared.error);
      }
      rows := rows - {id};
      r := Deleted;
    }
  }

  // A job whose one output file answers its delete with an error: the row goes and the file stays.
  method LockedOutputOutlivesItsRow(caller: TranscodeJob.Caller) returns (r: Deletion, left: seq<string>)
    ensures r.Deleted? && "processed/j/master.m3u8" in left
  {
    hide TranscodeJob.CanModify, StartsWith;
    var key := "processed/j/master.m3u8";
    var store := new Store(1000, {key}, 10);
    store.keys := [key];
    var jobs := new Jobs(store);
    var row := TranscodeJob.Row(caller.orgId, Some(caller.userId), TranscodeJob.Completed, 100.0, None);
    jobs.rows := map["j" := row];
    OwnerMayDelete(row, caller);
    AtMostOne(Matching(store.keys, OutputPrefix("j")), key);
    assert jobs.Slot("j") == TranscodeJob.Present(row);
    r := jobs.DeleteJob("j", caller);
    left := store.keys;
  }

  lemma OwnerMayDelete(row: TranscodeJob.Row, caller: TranscodeJob.Caller)
    requires row.orgId == caller.orgId && row.createdBy == Some(caller.userId) && row.state.Completed?
    ensures TranscodeJob.CheckDelete(TranscodeJob.Present(row), caller).None?
  {
  }

  lemma {:induction false} AtMostOne(s: set<string>, x: string)
    requires s <= {x}
    ensures |s| <= 1
  {
    assert if x in s then s == {x} else s == {};
  }
}
