/**
 * The dashboard's status aggregation over the sprint document's
 * `development_status` mapping, taken here as its entries in key order:
 * epic keys (`epic-N`), story keys (`N-M-slug`) and the two bookkeeping
 * keys `generated` and `project`.
 */
module Progress {

  import opened Options
  import opened Text
  import opened Patterns

  type Entries = seq<(string, string)>

  // ---------------------------------------------------------------------------
  // Keys
  // ---------------------------------------------------------------------------

  /** `/^epic-\d+$/.test(key)` */
  predicate IsEpicKey(key: string) {
    StartsWith(key, "epic-") && IsDigits(key[5..])
  }

  /** `isEpicKey` holds exactly for `epic-` followed by one or more digits and nothing else. */
  lemma EpicKeyForm(key: string)
    ensures IsEpicKey(key) <==> exists d :: IsDigits(d) && key == "epic-" + d
  {
    if IsEpicKey(key) {
      assert key == key[..5] + key[5..];
    }
    if exists d :: IsDigits(d) && key == "epic-" + d {
      var d :| IsDigits(d) && key == "epic-" + d;
      assert key[..5] == "epic-" && key[5..] == d;
    }
  }

  /** `epicKey.replace('epic-', '')`: the key without its first `epic-`. */
  function EpicNumber(epicKey: string): string {
    ReplaceFirst(epicKey, "epic-", "")
  }

  lemma EpicNumberOf(d: string)
    ensures EpicNumber("epic-" + d) == d
  {
    var k := "epic-" + d;
    assert OccursAt(k, "epic-", 0);
    assert Contains(k, "epic-");
    assert k[0..5] == "epic-";
    assert k[5..] == d;
  }

  /** Neither an epic key nor a bookkeeping key. */
  predicate IsStoryKey(key: string) {
    !IsEpicKey(key) && key != "generated" && key != "project"
  }

  /** The keys `computeProgress` and `getStoriesForEpic` attribute to the epic numbered num. */
  predicate Counted(key: string, num: string) {
    IsStoryKey(key) && StartsWith(key, num + "-")
  }

  /** A story key belongs to one epic number at most: `epic-1` never counts `10-…`. */
  lemma OneEpicPerKey(key: string, d1: string, d2: string)
    requires IsDigits(d1) && IsDigits(d2)
    requires Counted(key, d1) && Counted(key, d2)
    ensures d1 == d2
  {
    NumberPrefix(key, d1);
    NumberPrefix(key, d2);
    assert d1 == key[..|d1|] && d2 == key[..|d2|];
  }

  /** Two epic keys `epic-d1` and `epic-d2` share a counted story key only when they are the same key. */
  lemma EpicKeysShareNoStory(key: string, d1: string, d2: string)
    requires IsDigits(d1) && IsDigits(d2)
    ensures Counted(key, EpicNumber("epic-" + d1)) && Counted(key, EpicNumber("epic-" + d2)) ==> d1 == d2
  {
    EpicNumberOf(d1);
    EpicNumberOf(d2);
    if Counted(key, d1) && Counted(key, d2) {
      OneEpicPerKey(key, d1, d2);
    }
  }

  /** `epic-1` does not count the stories of epic 10. */
  lemma EpicOneSkipsTen(rest: string)
    ensures !Counted("10-" + rest, EpicNumber("epic-1"))
  {
    var key := "10-" + rest;
    EpicNumberOf("1");
    assert |key| >= 2 && key[1] == '0';
    NotDashAfterOne(key);
  }

  lemma NotDashAfterOne(key: string)
    requires |key| >= 2 && key[1] != '-'
    ensures !StartsWith(key, "1" + "-")
  {
    var p := "1" + "-";
    assert p[1] == '-' && key[..2][1] == key[1];
  }

  lemma NumberPrefix(key: string, d: string)
    requires IsDigits(d) && StartsWith(key, d + "-")
    ensures LeadingDigits(key) == |d| && key[..|d|] == d
  {
    var rest := key[|d|..];
    assert key[..|d| + 1] == d + "-";
    assert key[..|d|] == d && rest[0] == '-';
    assert key == d + rest;
    DigitsPrefix(d, rest);
  }

  // ---------------------------------------------------------------------------
  // Status words
  // ---------------------------------------------------------------------------

  /** `st === 'done'` after `String(…).toLowerCase()` */
  predicate IsDone(status: string) {
    Lower(status) == "done"
  }

  /** `['in-progress', 'review', 'qa-review'].some(x => st.includes(x))` */
  predicate IsUnderWay(status: string) {
    var st := Lower(status);
    Contains(st, "in-progress") || Contains(st, "review") || Contains(st, "qa-review")
  }

  const Columns: set<string> := {"backlog", "ready-for-dev", "in-progress", "review", "done"}

  /** `statusToColumn(status)`: the kanban column of a status word. */
  function StatusToColumn(status: string): (col: string)
    ensures col in Columns
    ensures col == "done" <==> Lower(status) == "done"
    ensures col == "in-progress" <==> Lower(status) == "in-progress"
    ensures col == "review" <==> Lower(status) == "review" || Lower(status) == "qa-review"
    ensures col == "ready-for-dev" <==> Lower(status) == "ready-for-dev"
  {
    var s := Lower(status);
    if s == "done" then "done"
    else if s == "in-progress" then "in-progress"
    else if s == "review" || s == "qa-review" then "review"
    else if s == "ready-for-dev" then "ready-for-dev"
    else "backlog"
  }

  /** The column does not depend on letter case. */
  lemma ColumnIgnoresCase(status: string)
    ensures StatusToColumn(Lower(status)) == StatusToColumn(status)
  {
    LowerIdempotent(status);
  }

  // ---------------------------------------------------------------------------
  // Counting
  // ---------------------------------------------------------------------------

  datatype Counts = Counts(total: nat, done: nat, underWay: nat)

  function Plus(a: Counts, b: Counts): Counts {
    Counts(a.total + b.total, a.done + b.done, a.underWay + b.underWay)
  }

  lemma PlusAssoc(a: Counts, b: Counts, c: Counts)
    ensures Plus(Plus(a, b), c) == Plus(a, Plus(b, c))
  {
  }

  /** What one status entry adds to the counts of the epic numbered num. */
  function EntryCounts(e: (string, string), num: string): (c: Counts)
    ensures c.done + c.underWay <= c.total <= 1
    ensures c.total == 1 <==> Counted(e.0, num)
    ensures c.done == 1 <==> Counted(e.0, num) && IsDone(e.1)
    ensures c.underWay == 1 <==> Counted(e.0, num) && !IsDone(e.1) && IsUnderWay(e.1)
  {
    if !Counted(e.0, num) then Counts(0, 0, 0)
    else if IsDone(e.1) then Counts(1, 1, 0)
    else if IsUnderWay(e.1) then Counts(1, 0, 1)
    else Counts(1, 0, 0)
  }

  /** The counts one linked epic contributes, over all status entries. */
  function EpicCounts(num: string, ds: Entries): (c: Counts)
    ensures c.done + c.underWay <= c.total <= |ds|
  {
    if ds == [] then Counts(0, 0, 0)
    else Plus(EpicCounts(num, ds[..|ds| - 1]), EntryCounts(ds[|ds| - 1], num))
  }

  /** The counts of a capability: the sum over its linked epics, a repeated epic counted again. */
  function CapCounts(epics: seq<string>, ds: Entries): (c: Counts)
    ensures c.done + c.underWay <= c.total
  {
    if epics == [] then Counts(0, 0, 0)
    else Plus(CapCounts(epics[..|epics| - 1], ds), EpicCounts(EpicNumber(epics[|epics| - 1]), ds))
  }

  /** The derived status of a capability's counts. */
  function StatusOf(c: Counts): (status: string)
    ensures status in {"done", "in-progress", "backlog"}
    ensures status == "done" <==> c.total > 0 && c.done == c.total
    ensures status == "in-progress" <==> c.total > 0 && c.done != c.total && (c.done > 0 || c.underWay > 0)
  {
    if c.total > 0 && c.done == c.total then "done"
    else if c.total > 0 && (c.done > 0 || c.underWay > 0) then "in-progress"
    else "backlog"
  }

  /** The `{ total, done, inProgress, status }` record of one capability. */
  datatype Entry = Entry(total: nat, done: nat, inProgress: nat, status: string)

  function EntryOf(c: Counts): Entry {
    Entry(c.total, c.done, c.underWay, StatusOf(c))
  }

  /** A capability as `computeProgress` reads it: its id and `cap.links?.epics || []`. */
  datatype CapRef = CapRef(id: string, epics: seq<string>)

  /** `computeProgress(capabilities, sprint)`: one entry per capability id, a later capability overwriting. */
  function ProgressMap(caps: seq<CapRef>, ds: Entries): (m: map<string, Entry>)
    ensures forall id :: id in m <==> exists j :: 0 <= j < |caps| && caps[j].id == id
  {
    if caps == [] then map[]
    else
      var last := caps[|caps| - 1];
      var init := ProgressMap(caps[..|caps| - 1], ds);
      var m := init[last.id := EntryOf(CapCounts(last.epics, ds))];
      assert forall id :: id in m <==> exists j :: 0 <= j < |caps| && caps[j].id == id by {
        forall id | id in m ensures exists j :: 0 <= j < |caps| && caps[j].id == id {
          if id != last.id {
            var j :| 0 <= j < |caps| - 1 && caps[..|caps| - 1][j].id == id;
            assert caps[j].id == id;
          }
        }
        forall id | exists j :: 0 <= j < |caps| && caps[j].id == id ensures id in m {
          var j :| 0 <= j < |caps| && caps[j].id == id;
          if j < |caps| - 1 {
            assert caps[..|caps| - 1][j].id == id;
          }
        }
      }
      m
  }

  // ---------------------------------------------------------------------------
  // The loops
  // ---------------------------------------------------------------------------

  method ComputeProgress(caps: seq<CapRef>, ds: Entries) returns (progress: map<string, Entry>)
    ensures progress == ProgressMap(caps, ds)
  {
    progress := map[];
    for c := 0 to |caps|
      invariant progress == ProgressMap(caps[..c], ds)
    {
      assert caps[..c + 1][..c] == caps[..c];
      var counts := CountCapability(caps[c].epics, ds);
      progress := progress[caps[c].id := EntryOf(counts)];
    }
    assert caps[..|caps|] == caps;
  }

  /** The loop of `computeProgress` over one capability's linked epics. */
  method CountCapability(epics: seq<string>, ds: Entries) returns (counts: Counts)
    ensures counts == CapCounts(epics, ds)
  {
    counts := Counts(0, 0, 0);
    for e := 0 to |epics|
      invariant counts == CapCounts(epics[..e], ds)
    {
      assert epics[..e + 1][..e] == epics[..e];
      var num := EpicNumber(epics[e]);
      counts := CountEpic(num, ds, counts);
    }
    assert epics[..|epics|] == epics;
  }

  /** The innermost loop of `computeProgress`: the keys of one epic, added to the counts so far. */
  method CountEpic(num: string, ds: Entries, before: Counts) returns (counts: Counts)
    ensures counts == Plus(before, EpicCounts(num, ds))
  {
    counts := before;
    for k := 0 to |ds|
      invariant counts == Plus(before, EpicCounts(num, ds[..k]))
    {
      EpicCountsStep(num, ds, k);
      PlusAssoc(before, EpicCounts(num, ds[..k]), EntryCounts(ds[k], num));
      counts := CountKey(ds[k].0, ds[k].1, num, counts);
    }
    assert ds[..|ds|] == ds;
  }

  lemma EpicCountsStep(num: string, ds: Entries, k: nat)
    requires k < |ds|
    ensures EpicCounts(num, ds[..k + 1]) == Plus(EpicCounts(num, ds[..k]), EntryCounts(ds[k], num))
  {
    assert ds[..k + 1][..k] == ds[..k];
  }

  /** The callback the innermost loop runs on one key and its status. */
  method CountKey(key: string, status: string, num: string, before: Counts) returns (counts: Counts)
    ensures counts == Plus(before, EntryCounts((key, status), num))
  {
    var total, done, inProgress := before.total, before.done, before.underWay;
    if IsEpicKey(key) || key == "generated" || key == "project" {
      return before;
    }
    if StartsWith(key, num + "-") {
      total := total + 1;
      var st := Lower(status);
      if st == "done" {
        done := done + 1;
      } else if Contains(st, "in-progress") || Contains(st, "review") || Contains(st, "qa-review") {
        inProgress := inProgress + 1;
      }
    }
    counts := Counts(total, done, inProgress);
  }

  // ---------------------------------------------------------------------------
  // Properties of the counts
  // ---------------------------------------------------------------------------

  /** The progress of each id is that of the last capability carrying it. */
  lemma {:induction false} LastCapabilityWins(caps: seq<CapRef>, ds: Entries, j: nat)
    requires j < |caps|
    requires forall k :: j < k < |caps| ==> caps[k].id != caps[j].id
    ensures caps[j].id in ProgressMap(caps, ds)
    ensures ProgressMap(caps, ds)[caps[j].id] == EntryOf(CapCounts(caps[j].epics, ds))
    decreases |caps|
  {
    if j < |caps| - 1 {
      var init := caps[..|caps| - 1];
      assert init[j] == caps[j];
      LastCapabilityWins(init, ds, j);
    }
  }

  /** Counts over a split list of entries add up. */
  lemma {:induction false} EpicCountsAppend(num: string, a: Entries, b: Entries)
    ensures EpicCounts(num, a + b) == Plus(EpicCounts(num, a), EpicCounts(num, b))
    decreases |b|
  {
    if b == [] {
      assert a + b == a;
      var c := EpicCounts(num, a);
      assert EpicCounts(num, b) == Counts(0, 0, 0);
      assert Plus(c, Counts(0, 0, 0)) == c;
    } else {
      var init := b[..|b| - 1];
      var x := EntryCounts(b[|b| - 1], num);
      ConcatInit(a, b);
      assert EpicCounts(num, a + b) == Plus(EpicCounts(num, a + init), x);
      assert EpicCounts(num, b) == Plus(EpicCounts(num, init), x);
      EpicCountsAppend(num, a, init);
      PlusAssoc(EpicCounts(num, a), EpicCounts(num, init), x);
    }
  }

  /** Capability counts over a split list of epics add up; listing an epic twice counts it twice. */
  lemma {:induction false} CapCountsAppend(a: seq<string>, b: seq<string>, ds: Entries)
    ensures CapCounts(a + b, ds) == Plus(CapCounts(a, ds), CapCounts(b, ds))
    decreases |b|
  {
    if b == [] {
      assert a + b == a;
      var c := CapCounts(a, ds);
      assert CapCounts(b, ds) == Counts(0, 0, 0);
      assert Plus(c, Counts(0, 0, 0)) == c;
    } else {
      var init := b[..|b| - 1];
      var x := EpicCounts(EpicNumber(b[|b| - 1]), ds);
      ConcatInit(a, b);
      assert CapCounts(a + b, ds) == Plus(CapCounts(a + init, ds), x);
      assert CapCounts(b, ds) == Plus(CapCounts(init, ds), x);
      CapCountsAppend(a, init, ds);
      PlusAssoc(CapCounts(a, ds), CapCounts(init, ds), x);
    }
  }

  /** The loop does not skip repeated epics: linking the same epics twice counts their stories twice. */
  lemma RepeatedEpicCountsTwice(epics: seq<string>, ds: Entries)
    ensures CapCounts(epics + epics, ds).total == 2 * CapCounts(epics, ds).total
    ensures CapCounts(epics + epics, ds).done == 2 * CapCounts(epics, ds).done
  {
    CapCountsAppend(epics, epics, ds);
  }

  /** Every entry counted for the epic numbered num is done. */
  predicate AllDone(num: string, ds: Entries) {
    forall i :: 0 <= i < |ds| && Counted(ds[i].0, num) ==> IsDone(ds[i].1)
  }

  lemma AllDoneSplit(num: string, ds: Entries)
    requires ds != []
    ensures AllDone(num, ds) <==> AllDone(num, ds[..|ds| - 1]) && (Counted(ds[|ds| - 1].0, num) ==> IsDone(ds[|ds| - 1].1))
  {
    var init := ds[..|ds| - 1];
    ExistsSnoc(ds, init, (e: (string, string)) => Counted(e.0, num) && IsDone(e.1));
    ExistsSnoc(ds, init, (e: (string, string)) => Counted(e.0, num) && !IsDone(e.1) && IsUnderWay(e.1));
  }

  /** An epic's counts are done in full exactly when every key counted for it is done. */
  lemma {:induction false} EpicDoneIff(num: string, ds: Entries)
    ensures EpicCounts(num, ds).done == EpicCounts(num, ds).total <==> AllDone(num, ds)
    decreases |ds|
  {
    if ds != [] {
      var init := ds[..|ds| - 1];
      var last := ds[|ds| - 1];
      var c := EpicCounts(num, init);
      var x := EntryCounts(last, num);
      assert EpicCounts(num, ds) == Plus(c, x);
      EpicDoneIff(num, init);
      AllDoneSplit(num, ds);
      assert x.done == x.total <==> (Counted(last.0, num) ==> IsDone(last.1));
    }
  }

  /** Every entry counted for one of the epics is done (epic by epic, the last one first). */
  predicate AllEpicsDone(epics: seq<string>, ds: Entries)
    decreases |epics|
  {
    epics == [] || (AllEpicsDone(epics[..|epics| - 1], ds) && AllDone(EpicNumber(epics[|epics| - 1]), ds))
  }

  /** A capability is done exactly when it has counted keys and every one of them is done. */
  lemma CapDoneIff(epics: seq<string>, ds: Entries)
    ensures StatusOf(CapCounts(epics, ds)) == "done" <==> CapCounts(epics, ds).total > 0 && AllEpicsDone(epics, ds)
  {
    CapFullyDone(epics, ds);
  }

  lemma {:induction false} CapFullyDone(epics: seq<string>, ds: Entries)
    ensures CapCounts(epics, ds).done == CapCounts(epics, ds).total <==> AllEpicsDone(epics, ds)
    decreases |epics|
  {
    if epics != [] {
      var init := epics[..|epics| - 1];
      var num := EpicNumber(epics[|epics| - 1]);
      var c := CapCounts(init, ds);
      var x := EpicCounts(num, ds);
      assert CapCounts(epics, ds) == Plus(c, x);
      CapFullyDone(init, ds);
      EpicDoneIff(num, ds);
    }
  }

  /** Some entry counted for the epic numbered num is done. */
  predicate SomeDone(num: string, ds: Entries) {
    exists i :: 0 <= i < |ds| && Counted(ds[i].0, num) && IsDone(ds[i].1)
  }

  /** Some entry counted for the epic numbered num is in progress or in review, and not done. */
  predicate SomeUnderWay(num: string, ds: Entries) {
    exists i :: 0 <= i < |ds| && Counted(ds[i].0, num) && !IsDone(ds[i].1) && IsUnderWay(ds[i].1)
  }

  lemma SomeSplit(num: string, ds: Entries)
    requires ds != []
    ensures SomeDone(num, ds) <==> SomeDone(num, ds[..|ds| - 1]) || EntryCounts(ds[|ds| - 1], num).done == 1
    ensures SomeUnderWay(num, ds) <==> SomeUnderWay(num, ds[..|ds| - 1]) || EntryCounts(ds[|ds| - 1], num).underWay == 1
  {
    var init := ds[..|ds| - 1];
    ExistsSnoc(ds, init, (e: (string, string)) => Counted(e.0, num) && IsDone(e.1));
    ExistsSnoc(ds, init, (e: (string, string)) => Counted(e.0, num) && !IsDone(e.1) && IsUnderWay(e.1));
  }

  /** An epic has a done key exactly when some counted entry is done, and one under way exactly when some is. */
  lemma {:induction false} EpicSomeIff(num: string, ds: Entries)
    ensures EpicCounts(num, ds).done > 0 <==> SomeDone(num, ds)
    ensures EpicCounts(num, ds).underWay > 0 <==> SomeUnderWay(num, ds)
    decreases |ds|
  {
    if ds != [] {
      var init := ds[..|ds| - 1];
      assert EpicCounts(num, ds) == Plus(EpicCounts(num, init), EntryCounts(ds[|ds| - 1], num));
      EpicSomeIff(num, init);
      SomeSplit(num, ds);
    }
  }

  /** Some entry counted for the linked epic epicKey is done or under way. */
  predicate EpicStarted(epicKey: string, ds: Entries) {
    SomeDone(EpicNumber(epicKey), ds) || SomeUnderWay(EpicNumber(epicKey), ds)
  }

  /** Some entry counted for one of the linked epics is done or under way. */
  predicate AnyStarted(epics: seq<string>, ds: Entries) {
    exists k :: 0 <= k < |epics| && EpicStarted(epics[k], ds)
  }

  lemma AnyStartedSplit(epics: seq<string>, ds: Entries)
    requires epics != []
    ensures AnyStarted(epics, ds) <==> AnyStarted(epics[..|epics| - 1], ds) || EpicStarted(epics[|epics| - 1], ds)
  {
    ExistsSnoc(epics, epics[..|epics| - 1], e => EpicStarted(e, ds));
  }

  /** Some element of a non-empty sequence satisfies p exactly when one before the last or the last does. */
  lemma ExistsSnoc<T>(s: seq<T>, init: seq<T>, p: T -> bool)
    requires s != [] && init == s[..|s| - 1]
    ensures (exists k :: 0 <= k < |s| && p(s[k])) <==> ((exists k :: 0 <= k < |init| && p(init[k])) || p(s[|s| - 1]))
  {
    if exists k :: 0 <= k < |s| && p(s[k]) {
      var k :| 0 <= k < |s| && p(s[k]);
      if k < |init| {
        assert init[k] == s[k];
      }
    }
    if exists k :: 0 <= k < |init| && p(init[k]) {
      var k :| 0 <= k < |init| && p(init[k]);
      assert s[k] == init[k];
    }
  }

  /** A capability has a done or under-way key exactly when one of its linked epics has. */
  lemma {:induction false} CapStartedIff(epics: seq<string>, ds: Entries)
    ensures CapCounts(epics, ds).done > 0 || CapCounts(epics, ds).underWay > 0 <==> AnyStarted(epics, ds)
    decreases |epics|
  {
    if epics != [] {
      var init := epics[..|epics| - 1];
      var num := EpicNumber(epics[|epics| - 1]);
      assert CapCounts(epics, ds) == Plus(CapCounts(init, ds), EpicCounts(num, ds));
      CapStartedIff(init, ds);
      EpicSomeIff(num, ds);
      AnyStartedSplit(epics, ds);
    }
  }

  /** A capability is in progress exactly when it has counted keys, not all done, and one of them done or under way. */
  lemma CapInProgressIff(epics: seq<string>, ds: Entries)
    ensures StatusOf(CapCounts(epics, ds)) == "in-progress" <==>
      CapCounts(epics, ds).total > 0 && !AllEpicsDone(epics, ds) && AnyStarted(epics, ds)
  {
    CapFullyDone(epics, ds);
    CapStartedIff(epics, ds);
  }

  // ---------------------------------------------------------------------------
  // getStoriesForEpic
  // ---------------------------------------------------------------------------

  /** `getStoriesForEpic(epicKey, devStatus)`: the entries counted for the epic, in key order. */
  function StoriesForEpic(epicKey: string, ds: Entries): (r: Entries)
    ensures forall p :: p in r ==> p in ds && Counted(p.0, EpicNumber(epicKey))
  {
    if ds == [] then []
    else
      var init := StoriesForEpic(epicKey, ds[..|ds| - 1]);
      var last := ds[|ds| - 1];
      init + (if Counted(last.0, EpicNumber(epicKey)) then [last] else [])
  }

  /** The stories listed for an epic are exactly the entries `computeProgress` counts for it. */
  lemma {:induction false} StoriesAreCounted(epicKey: string, ds: Entries)
    ensures |StoriesForEpic(epicKey, ds)| == EpicCounts(EpicNumber(epicKey), ds).total
    ensures forall p :: p in ds && Counted(p.0, EpicNumber(epicKey)) ==> p in StoriesForEpic(epicKey, ds)
    decreases |ds|
  {
    if ds != [] {
      var init := ds[..|ds| - 1];
      StoriesAreCounted(epicKey, init);
      forall p | p in ds && Counted(p.0, EpicNumber(epicKey)) ensures p in StoriesForEpic(epicKey, ds) {
        if p != ds[|ds| - 1] {
          var i :| 0 <= i < |ds| && ds[i] == p;
          assert init[i] == p;
        }
      }
    }
  }

  /** Listing preserves key order: the stories of a split list are those of its parts, in turn. */
  lemma {:induction false} StoriesForEpicAppend(epicKey: string, a: Entries, b: Entries)
    ensures StoriesForEpic(epicKey, a + b) == StoriesForEpic(epicKey, a) + StoriesForEpic(epicKey, b)
    decreases |b|
  {
    if b == [] {
      assert a + b == a;
    } else {
      var init := b[..|b| - 1];
      var last := b[|b| - 1];
      var x := if Counted(last.0, EpicNumber(epicKey)) then [last] else [];
      ConcatInit(a, b);
      StoriesForEpicAppend(epicKey, a, init);
      assert StoriesForEpic(epicKey, a + b) == StoriesForEpic(epicKey, a + init) + x;
      ConcatAssoc(StoriesForEpic(epicKey, a), StoriesForEpic(epicKey, init), x);
    }
  }

  // ---------------------------------------------------------------------------
  // The header and dashboard tallies
  // ---------------------------------------------------------------------------

  datatype Tally = Tally(epicsTotal: nat, epicsDone: nat, storiesTotal: nat, storiesDone: nat)

  /** The counters of the header and of the dashboard; `done` is compared exactly, without lower-casing. */
  function TallyOf(ds: Entries): (t: Tally)
    ensures t.epicsDone <= t.epicsTotal && t.storiesDone <= t.storiesTotal
    ensures t.epicsTotal + t.storiesTotal <= |ds|
  {
    if ds == [] then Tally(0, 0, 0, 0)
    else
      var t := TallyOf(ds[..|ds| - 1]);
      var e := ds[|ds| - 1];
      var d := if e.1 == "done" then 1 else 0;
      if IsEpicKey(e.0) then Tally(t.epicsTotal + 1, t.epicsDone + d, t.storiesTotal, t.storiesDone)
      else if IsStoryKey(e.0) then Tally(t.epicsTotal, t.epicsDone, t.storiesTotal + 1, t.storiesDone + d)
      else t
  }

  /** The entries under the bookkeeping keys `generated` and `project`. */
  function Bookkeeping(ds: Entries): nat {
    if ds == [] then 0
    else Bookkeeping(ds[..|ds| - 1]) + (if ds[|ds| - 1].0 in {"generated", "project"} then 1 else 0)
  }

  /** Every entry is an epic, a story or a bookkeeping entry, and is counted once. */
  lemma {:induction false} TallyCoversEntries(ds: Entries)
    ensures TallyOf(ds).epicsTotal + TallyOf(ds).storiesTotal + Bookkeeping(ds) == |ds|
    decreases |ds|
  {
    if ds != [] {
      TallyCoversEntries(ds[..|ds| - 1]);
      var k := ds[|ds| - 1].0;
      if k == "generated" || k == "project" {
        assert !IsEpicKey(k) by {
          assert k[0] != 'e';
        }
      }
    }
  }

  /** `updateMetrics`: one loop over the keys. */
  method UpdateMetrics(ds: Entries) returns (t: Tally)
    ensures t == TallyOf(ds)
  {
    var storiesTotal, storiesDone, epicsTotal, epicsDone := 0, 0, 0, 0;
    for i := 0 to |ds|
      invariant Tally(epicsTotal, epicsDone, storiesTotal, storiesDone) == TallyOf(ds[..i])
    {
      TallyStep(ds, i);
      var key := ds[i].0;
      if IsEpicKey(key) {
        epicsTotal := epicsTotal + 1;
        if ds[i].1 == "done" {
          epicsDone := epicsDone + 1;
        }
      } else if !IsEpicKey(key) && key != "generated" && key != "project" {
        storiesTotal := storiesTotal + 1;
        if ds[i].1 == "done" {
          storiesDone := storiesDone + 1;
        }
      }
    }
    assert ds[..|ds|] == ds;
    t := Tally(epicsTotal, epicsDone, storiesTotal, storiesDone);
  }

  /** What entry i adds to the tally of the entries before it. */
  lemma TallyStep(ds: Entries, i: nat)
    requires i < |ds|
    ensures var t, t' := TallyOf(ds[..i]), TallyOf(ds[..i + 1]);
      var d := if ds[i].1 == "done" then 1 else 0;
      && t'.epicsTotal == t.epicsTotal + (if IsEpicKey(ds[i].0) then 1 else 0)
      && t'.epicsDone == t.epicsDone + (if IsEpicKey(ds[i].0) then d else 0)
      && t'.storiesTotal == t.storiesTotal + (if IsStoryKey(ds[i].0) then 1 else 0)
      && t'.storiesDone == t.storiesDone + (if IsStoryKey(ds[i].0) then d else 0)
  {
    assert ds[..i + 1][..i] == ds[..i];
  }

  /** `renderDashboard`: one loop for the epics and another for the stories, agreeing with the header. */
  method DashboardTallies(ds: Entries) returns (t: Tally)
    ensures t == TallyOf(ds)
  {
    var epicsTotal, epicsDone := 0, 0;
    for i := 0 to |ds|
      invariant epicsTotal == TallyOf(ds[..i]).epicsTotal && epicsDone == TallyOf(ds[..i]).epicsDone
    {
      TallyStep(ds, i);
      if IsEpicKey(ds[i].0) {
        epicsTotal := epicsTotal + 1;
        if ds[i].1 == "done" {
          epicsDone := epicsDone + 1;
        }
      }
    }
    var storiesTotal, storiesDone := 0, 0;
    for i := 0 to |ds|
      invariant storiesTotal == TallyOf(ds[..i]).storiesTotal && storiesDone == TallyOf(ds[..i]).storiesDone
    {
      TallyStep(ds, i);
      var key := ds[i].0;
      if !IsEpicKey(key) && key != "generated" && key != "project" {
        storiesTotal := storiesTotal + 1;
        if ds[i].1 == "done" {
          storiesDone := storiesDone + 1;
        }
      }
    }
    assert ds[..|ds|] == ds;
    t := Tally(epicsTotal, epicsDone, storiesTotal, storiesDone);
  }
}
