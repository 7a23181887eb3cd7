/** The in-sandbox credential cache, keyed by the vault file's modification time, against
    a writer that may act between the stat and the load of one call. */
module SessionVault {
  import opened Seqs

  datatype FileState = Absent | Present(mtime: int, bytes: string)

  datatype Creds = Creds(entries: string)

  const NO_CREDENTIALS := Creds("")

  /** Parsing of the vault file; it may fail. */
  type Decoder = string -> Option<Creds>

  /** What a load sees: a missing file loads as an empty store. */
  function Loaded(f: FileState, decode: Decoder): Option<Creds> {
    if f.Absent? then Some(NO_CREDENTIALS) else decode(f.bytes)
  }

  datatype Vault = Vault(store: Option<Creds>, modTime: int, loadedOK: bool)

  const FRESH_VAULT := Vault(None, 0, false)

  /** The file's state at every instant. */
  type History = seq<FileState>

  /** When one call stats and loads, and whether either fails for other reasons. */
  datatype Call = Call(statAt: nat, loadAt: nat, statFails: bool, loadFails: bool)

  predicate Within(h: History, c: Call) { c.statAt <= c.loadAt < |h| }

  predicate IsHit(v: Vault, h: History, c: Call)
    requires Within(h, c)
  {
    !c.statFails && h[c.statAt].Present? && v.loadedOK && h[c.statAt].mtime == v.modTime
  }

  predicate IsReload(v: Vault, h: History, c: Call, decode: Decoder)
    requires Within(h, c)
  {
    !c.statFails && h[c.statAt].Present? && !IsHit(v, h, c) && !c.loadFails && Loaded(h[c.loadAt], decode).Some?
  }

  /** The vault after one call; the call returns its store. */
  function After(v: Vault, h: History, c: Call, decode: Decoder): Vault
    requires Within(h, c)
  {
    if c.statFails then v
    else if h[c.statAt].Absent? then FRESH_VAULT
    else if IsReload(v, h, c, decode) then Vault(Loaded(h[c.loadAt], decode), h[c.statAt].mtime, true)
    else v
  }

  class SessionVault {
    var store: Option<Creds>
    var modTime: int
    var loadedOK: bool

    ghost function Value(): Vault
      reads this
    {
      Vault(store, modTime, loadedOK)
    }

    constructor ()
      ensures Value() == FRESH_VAULT
    {
      store, modTime, loadedOK := None, 0, false;
    }

    method CredentialStore(h: History, c: Call, decode: Decoder) returns (result: Option<Creds>)
      requires Within(h, c)
      modifies this
      ensures Value() == After(old(Value()), h, c, decode)
      ensures result == store
    {
      if c.statFails {
        return store;
      }
      var info := h[c.statAt];
      if info.Absent? {
        store := None;
        loadedOK := false;
        modTime := 0;
        return None;
      }
      if loadedOK && info.mtime == modTime {
        return store;
      }
      if c.loadFails {
        return store;
      }
      var loaded := Loaded(h[c.loadAt], decode);
      if loaded.None? {
        return store;
      }
      store := loaded;
      modTime := info.mtime;
      loadedOK := true;
      result := store;
    }
  }

  // ---------------------------------------------------------------- runs of calls

  /** Calls one after the other, as the mutex makes them. */
  ghost predicate Scheduled(h: History, calls: seq<Call>) {
    && (forall i :: 0 <= i < |calls| ==> Within(h, calls[i]))
    && (forall i :: 0 <= i < |calls| - 1 ==> calls[i].loadAt <= calls[i + 1].statAt)
  }

  ghost function AfterCalls(h: History, calls: seq<Call>, decode: Decoder): Vault
    requires Scheduled(h, calls)
  {
    if calls == [] then FRESH_VAULT
    else After(AfterCalls(h, calls[..|calls| - 1], decode), h, calls[|calls| - 1], decode)
  }

  /** The result is what the file decodes to at some instant of the call. */
  ghost predicate FreshDuring(h: History, c: Call, result: Option<Creds>, decode: Decoder)
    requires Within(h, c)
  {
    exists t :: c.statAt <= t <= c.loadAt && Loaded(h[t], decode) == result && result.Some?
  }

  /** Equal modification times at the ends of an interval mean that everything loadable
      inside it is what the end decodes to. */
  ghost predicate MtimeIdentifies(h: History, decode: Decoder) {
    forall i, j, k :: 0 <= i <= j <= k < |h| ==> NoStaleLoad(h, i, j, k, decode)
  }

  ghost predicate NoStaleLoad(h: History, i: nat, j: nat, k: nat, decode: Decoder)
    requires i <= j <= k < |h|
  {
    h[i].Present? && h[k].Present? && h[i].mtime == h[k].mtime && Loaded(h[j], decode).Some? ==>
      Loaded(h[k], decode) == Loaded(h[j], decode)
  }

  /** The cached store was loaded at an instant not before its recorded stat. */
  ghost predicate LoadedFrom(h: History, v: Vault, i: nat, j: nat, now: nat, decode: Decoder) {
    i <= j <= now && j < |h| && h[i].Present? && h[i].mtime == v.modTime &&
    v.store.Some? && Loaded(h[j], decode) == v.store
  }

  ghost predicate Traceable(h: History, v: Vault, now: nat, decode: Decoder) {
    v.loadedOK ==> exists i, j :: LoadedFrom(h, v, i, j, now, decode)
  }

  lemma {:induction false} CacheIsTraceable(h: History, calls: seq<Call>, now: nat, decode: Decoder)
    requires Scheduled(h, calls) && (calls != [] ==> calls[|calls| - 1].loadAt <= now)
    ensures Traceable(h, AfterCalls(h, calls, decode), now, decode)
  {
    if calls != [] {
      var init, c := calls[..|calls| - 1], calls[|calls| - 1];
      CacheIsTraceable(h, init, c.statAt, decode);
      var v := AfterCalls(h, init, decode);
      if IsReload(v, h, c, decode) {
        assert LoadedFrom(h, After(v, h, c, decode), c.statAt, c.loadAt, now, decode);
      } else if v.loadedOK {
        var i, j :| LoadedFrom(h, v, i, j, c.statAt, decode);
        assert LoadedFrom(h, v, i, j, now, decode);
      }
    }
  }

  /** Every hit and every reload after any schedule of calls is fresh. */
  ghost predicate AlwaysFresh(h: History, decode: Decoder) {
    forall calls, c :: Scheduled(h, calls + [c]) ==> FreshAnswer(h, calls, c, decode)
  }

  ghost predicate FreshAnswer(h: History, calls: seq<Call>, c: Call, decode: Decoder)
    requires Scheduled(h, calls + [c])
  {
    ScheduledPrefix(h, calls, c);
    var v := AfterCalls(h, calls, decode);
    IsHit(v, h, c) || IsReload(v, h, c, decode) ==> FreshDuring(h, c, After(v, h, c, decode).store, decode)
  }

  lemma ScheduledPrefix(h: History, calls: seq<Call>, c: Call)
    requires Scheduled(h, calls + [c])
    ensures Scheduled(h, calls) && Within(h, c)
    ensures calls != [] ==> calls[|calls| - 1].loadAt <= c.statAt
  {
    var all := calls + [c];
    forall i | 0 <= i < |calls| ensures Within(h, calls[i]) { assert all[i] == calls[i]; }
    forall i | 0 <= i < |calls| - 1 ensures calls[i].loadAt <= calls[i + 1].statAt {
      assert all[i] == calls[i] && all[i + 1] == calls[i + 1];
    }
    assert all[|calls|] == c;
    if calls != [] { assert all[|calls| - 1] == calls[|calls| - 1]; }
  }

  /** Freshness over every schedule holds exactly when modification times identify content. */
  lemma FreshExactlyWhenMtimeIdentifies(h: History, decode: Decoder)
    ensures AlwaysFresh(h, decode) <==> MtimeIdentifies(h, decode)
  {
    if MtimeIdentifies(h, decode) {
      forall calls, c | Scheduled(h, calls + [c]) ensures FreshAnswer(h, calls, c, decode) {
        AnswerIsFresh(h, calls, c, decode);
      }
    }
    if AlwaysFresh(h, decode) {
      forall i, j, k | 0 <= i <= j <= k < |h| ensures NoStaleLoad(h, i, j, k, decode) {
        StaleHit(h, i, j, k, decode);
      }
    }
  }

  lemma AnswerIsFresh(h: History, calls: seq<Call>, c: Call, decode: Decoder)
    requires MtimeIdentifies(h, decode) && Scheduled(h, calls + [c])
    ensures FreshAnswer(h, calls, c, decode)
  {
    ScheduledPrefix(h, calls, c);
    var v := AfterCalls(h, calls, decode);
    CacheIsTraceable(h, calls, c.statAt, decode);
    if IsHit(v, h, c) {
      var i, j :| LoadedFrom(h, v, i, j, c.statAt, decode);
      assert NoStaleLoad(h, i, j, c.statAt, decode);
      assert Loaded(h[c.statAt], decode) == v.store;
    } else if IsReload(v, h, c, decode) {
      assert Loaded(h[c.loadAt], decode) == After(v, h, c, decode).store;
    }
  }

  /** A first call that stats at i and loads at j, then a call at k: the second is a stale
      hit unless the instants are harmless. */
  lemma StaleHit(h: History, i: nat, j: nat, k: nat, decode: Decoder)
    requires i <= j <= k < |h| && AlwaysFresh(h, decode)
    ensures NoStaleLoad(h, i, j, k, decode)
  {
    if h[i].Present? && h[k].Present? && h[i].mtime == h[k].mtime && Loaded(h[j], decode).Some? {
      var first, second := Call(i, j, false, false), Call(k, k, false, false);
      var calls := [first];
      assert calls[..0] == [];
      assert Scheduled(h, calls + [second]);
      ScheduledPrefix(h, calls, second);
      assert AfterCalls(h, calls, decode) == After(FRESH_VAULT, h, first, decode);
      assert FreshAnswer(h, calls, second, decode);
    }
  }

  /** Each write gives the file a modification time above every earlier one. */
  ghost predicate StrictWrites(h: History) {
    forall k :: 0 < k < |h| && h[k].Present? && h[k] != h[k - 1] ==> AboveEarlier(h, k)
  }

  ghost predicate AboveEarlier(h: History, k: nat)
    requires k < |h| && h[k].Present?
  {
    forall i :: 0 <= i < k && h[i].Present? ==> h[i].mtime < h[k].mtime
  }

  lemma WriteRaises(h: History, i: nat, k: nat)
    requires StrictWrites(h) && i < k < |h| && h[i].Present? && h[k].Present? && h[k] != h[k - 1]
    ensures h[i].mtime < h[k].mtime
  {
    assert AboveEarlier(h, k);
  }

  /** So between two instants with one modification time nothing was written. */
  lemma {:induction false} UnchangedBetween(h: History, i: nat, j: nat, k: nat)
    requires StrictWrites(h) && i <= j <= k < |h|
    requires h[i].Present? && h[k].Present? && h[i].mtime == h[k].mtime
    ensures h[j] == h[k]
    decreases k
  {
    if j < k {
      if h[k] != h[k - 1] { WriteRaises(h, i, k); }
      UnchangedBetween(h, i, j, k - 1);
    }
  }

  /** Strictly increasing modification times make every hit and reload fresh. */
  lemma StrictWritesAreFresh(h: History, decode: Decoder)
    requires StrictWrites(h)
    ensures AlwaysFresh(h, decode)
  {
    forall i, j, k | 0 <= i <= j <= k < |h| ensures NoStaleLoad(h, i, j, k, decode) {
      if h[i].Present? && h[k].Present? && h[i].mtime == h[k].mtime { UnchangedBetween(h, i, j, k); }
    }
    FreshExactlyWhenMtimeIdentifies(h, decode);
  }

  /** Two writes within one clock tick defeat the cache. */
  lemma SameTickWriteIsMissed(decode: Decoder)
    requires decode("old").Some? && decode("new") != decode("old")
    ensures !AlwaysFresh([Present(1, "old"), Present(1, "new")], decode)
  {
    var h := [Present(1, "old"), Present(1, "new")];
    FreshExactlyWhenMtimeIdentifies(h, decode);
    assert !NoStaleLoad(h, 0, 0, 1, decode);
  }

  /** A call during which the file is present, loadable and unchanged returns what simply
      re-reading the file would, whatever raced at earlier loads. */
  lemma QuietCallRereads(h: History, calls: seq<Call>, c: Call, decode: Decoder)
    requires Scheduled(h, calls + [c]) && MtimeIdentifies(h, decode)
    requires Within(h, c) && !c.statFails && !c.loadFails && h[c.statAt].Present?
    requires Loaded(h[c.statAt], decode).Some?
    requires forall t :: c.statAt <= t <= c.loadAt ==> h[t] == h[c.statAt]
    ensures Scheduled(h, calls) && After(AfterCalls(h, calls, decode), h, c, decode).store == Loaded(h[c.statAt], decode)
  {
    ScheduledPrefix(h, calls, c);
    AnswerIsFresh(h, calls, c, decode);
    var v := AfterCalls(h, calls, decode);
    assert h[c.loadAt] == h[c.statAt];
    assert IsHit(v, h, c) || IsReload(v, h, c, decode);
  }

  lemma ScheduledPart(h: History, before: seq<Call>, c: Call, later: seq<Call>)
    requires Scheduled(h, before + [c] + later)
    ensures Scheduled(h, before + [c]) && Scheduled(h, later) && Scheduled(h, before + later)
  {
    var all := before + [c] + later;
    forall i | 0 <= i < |all|
      ensures i < |before| ==> all[i] == before[i]
      ensures i > |before| ==> all[i] == later[i - |before| - 1]
    {
    }
    assert all[|before|] == c && Within(h, c);
    forall i | 0 <= i < |later| ensures Within(h, later[i]) { assert all[i + |before| + 1] == later[i]; }
    forall i | 0 <= i < |before| ensures Within(h, before[i]) { assert all[i] == before[i]; }
    forall i | 0 <= i < |later| - 1 ensures later[i].loadAt <= later[i + 1].statAt {
      assert all[i + |before| + 1] == later[i] && all[i + |before| + 2] == later[i + 1];
    }
    forall i | 0 <= i < |before| + |later| - 1
      ensures (before + later)[i].loadAt <= (before + later)[i + 1].statAt
    {
      if i >= |before| {
        assert all[i + 1] == (before + later)[i] && all[i + 2] == (before + later)[i + 1];
      } else if i == |before| - 1 {
        assert all[i].loadAt <= all[i + 1].statAt <= all[i + 1].loadAt <= all[i + 2].statAt;
      } else {
        assert all[i] == (before + later)[i] && all[i + 1] == (before + later)[i + 1];
      }
    }
  }

  lemma DropLast(before: seq<Call>, c: Call, later: seq<Call>)
    requires later != []
    ensures var all := before + [c] + later; var init := later[..|later| - 1];
      && all[..|all| - 1] == before + [c] + init && all[|all| - 1] == later[|later| - 1]
      && (before + later)[..|before + later| - 1] == before + init
      && (before + later)[|before + later| - 1] == later[|later| - 1]
  {
  }

  /** A call that sees no file forgets everything before it: from there on the cache is what
      the later calls alone make of a new one. */
  lemma {:induction false} RemovalForgets(h: History, before: seq<Call>, gone: Call, later: seq<Call>, decode: Decoder)
    requires Scheduled(h, before + [gone] + later) && Within(h, gone) && !gone.statFails && h[gone.statAt].Absent?
    ensures Scheduled(h, later)
    ensures AfterCalls(h, before + [gone] + later, decode) == AfterCalls(h, later, decode)
    decreases |later|
  {
    ScheduledPart(h, before, gone, later);
    if later == [] {
      assert before + [gone] + later == before + [gone] && (before + [gone])[..|before|] == before;
      ScheduledPrefix(h, before, gone);
    } else {
      var all, last := before + [gone] + later, later[|later| - 1];
      DropLast(before, gone, later);
      assert all == all[..|all| - 1] + [last] && later == later[..|later| - 1] + [last];
      ScheduledPrefix(h, all[..|all| - 1], last);
      RemovalForgets(h, before, gone, later[..|later| - 1], decode);
    }
  }

  /** After it the next call that can load decides, whatever was cached and whatever times the
      old and the new file carry. */
  lemma LoadAfterRemoval(h: History, before: seq<Call>, gone: Call, next: Call, decode: Decoder)
    requires Scheduled(h, before + [gone] + [next]) && Within(h, gone) && !gone.statFails && h[gone.statAt].Absent?
    requires Within(h, next) && !next.statFails && h[next.statAt].Present? && !next.loadFails
    ensures var v := AfterCalls(h, before + [gone] + [next], decode);
      v.store == Loaded(h[next.loadAt], decode) && (v.store.Some? ==> v.modTime == h[next.statAt].mtime)
  {
    RemovalForgets(h, before, gone, [next], decode);
    assert [next][..0] == [];
    assert AfterCalls(h, [next], decode) == After(FRESH_VAULT, h, next, decode);
  }

  /** A call whose stat or load fails, or that loads what does not decode, leaves no trace in
      any schedule: the last good store stays. */
  lemma {:induction false} FailuresLeaveNoTrace(h: History, before: seq<Call>, bad: Call, later: seq<Call>, decode: Decoder)
    requires Scheduled(h, before + [bad] + later) && Within(h, bad)
    requires bad.statFails || (h[bad.statAt].Present? && (bad.loadFails || Loaded(h[bad.loadAt], decode).None?))
    ensures Scheduled(h, before + later)
    ensures AfterCalls(h, before + [bad] + later, decode) == AfterCalls(h, before + later, decode)
    decreases |later|
  {
    ScheduledPart(h, before, bad, later);
    if later == [] {
      assert before + [bad] + later == before + [bad] && (before + [bad])[..|before|] == before && before + later == before;
      ScheduledPrefix(h, before, bad);
    } else {
      var all, fewer, last := before + [bad] + later, before + later, later[|later| - 1];
      DropLast(before, bad, later);
      assert all == all[..|all| - 1] + [last] && fewer == fewer[..|fewer| - 1] + [last];
      ScheduledPrefix(h, all[..|all| - 1], last);
      FailuresLeaveNoTrace(h, before, bad, later[..|later| - 1], decode);
    }
  }
}
