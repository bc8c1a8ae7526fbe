/** The versioned entitlement table of admin-svc: interval rows appended and superseded by updates,
    read at an instant. A request is one transaction; the table's unique constraint on
    (tier, axis, effective_at) makes it fail as a whole. */
module Entitlements {
  import opened Basics

  // ---------- Data ----------

  datatype Key = Key(tier: string, axis: string)

  datatype Setting = Setting(value: string, currency: Option<string>)

  datatype Row = Row(key: Key, setting: Setting, effectiveAt: real, supersededAt: Option<real>)

  /** One axis of a request; without an effective time it takes effect at once. */
  datatype Item = Item(key: Key, setting: Setting, effectiveAt: Option<real>)

  datatype Update = Update(at: real, items: seq<Item>)

  /** What a reader sees of an active row. */
  datatype Shown = Shown(setting: Setting, effectiveAt: real)

  // ---------- Specification ----------

  function EffectiveAt(item: Item, at: real): real {
    if item.effectiveAt.Some? then item.effectiveAt.value else at
  }

  predicate Names(items: seq<Item>, key: Key) {
    exists i :: 0 <= i < |items| && items[i].key == key
  }

  lemma {:induction false} NamesLast(items: seq<Item>, k: nat, key: Key)
    requires k < |items|
    ensures Names(items[..k + 1], key) <==> Names(items[..k], key) || items[k].key == key
  {
    assert items[..k + 1] == items[..k] + [items[k]];
    var all := items[..k + 1];
    if Names(items[..k], key) {
      var i :| 0 <= i < k && items[..k][i].key == key;
      assert all[i].key == key;
    }
    if items[k].key == key { assert all[k].key == key; }
    if Names(all, key) {
      var i :| 0 <= i < |all| && all[i].key == key;
      assert i < k ==> items[..k][i].key == key;
    }
  }

  function Closed(row: Row, items: seq<Item>, at: real): Row {
    if row.supersededAt.None? && Names(items, row.key) then row.(supersededAt := Some(at)) else row
  }

  function Supersede(rows: seq<Row>, items: seq<Item>, at: real): (r: seq<Row>)
    ensures |r| == |rows|
  {
    seq(|rows|, i requires 0 <= i < |rows| => Closed(rows[i], items, at))
  }

  function NewRows(items: seq<Item>, at: real): (r: seq<Row>)
    ensures |r| == |items|
  {
    seq(|items|, i requires 0 <= i < |items| =>
      Row(items[i].key, items[i].setting, EffectiveAt(items[i], at), None))
  }

  predicate SameVersion(a: Row, b: Row) {
    a.key == b.key && a.effectiveAt == b.effectiveAt
  }

  /** The same row, whenever superseded. */
  predicate Same(a: Row, b: Row) {
    SameVersion(a, b) && a.setting == b.setting
  }

  predicate VersionsUnique(rows: seq<Row>) {
    forall i, j :: 0 <= i < j < |rows| ==> !SameVersion(rows[i], rows[j])
  }

  function Updated(rows: seq<Row>, u: Update): seq<Row> {
    Supersede(rows, u.items, u.at) + NewRows(u.items, u.at)
  }

  predicate Accepts(rows: seq<Row>, u: Update) {
    VersionsUnique(Updated(rows, u))
  }

  function Apply(rows: seq<Row>, u: Update): seq<Row> {
    if Accepts(rows, u) then Updated(rows, u) else rows
  }

  /** The table after a history of requests, and the requests among them that were accepted. */
  function Run(us: seq<Update>): (seq<Row>, seq<Update>) {
    if us == [] then ([], [])
    else
      var (rows, log) := Run(us[..|us| - 1]);
      var u := us[|us| - 1];
      (Apply(rows, u), if Accepts(rows, u) then log + [u] else log)
  }

  predicate Active(row: Row, t: real) {
    row.effectiveAt <= t && (row.supersededAt.None? || t < row.supersededAt.value)
  }

  // ---------- The simple log ----------

  function Find(items: seq<Item>, key: Key): (r: Option<Item>)
    ensures r.Some? ==> r.value in items && r.value.key == key
    ensures r.None? <==> !Names(items, key)
  {
    if items == [] then None
    else if items[0].key == key then Some(items[0])
    else
      assert Names(items[1..], key) ==> Names(items, key) by {
        if i :| 0 <= i < |items| - 1 && items[1..][i].key == key { assert items[i + 1].key == key; }
      }
      assert Names(items, key) ==> Names(items[1..], key) by {
        if i :| 0 <= i < |items| && items[i].key == key { assert items[1..][i - 1].key == key; }
      }
      Find(items[1..], key)
  }

  /** Replays the log up to an instant: the last update by then that names the key decides, and a
      setting not yet in effect hides the one it replaced. */
  function Replay(log: seq<Update>, key: Key, t: real): Option<Shown> {
    if log == [] then None
    else
      var u := log[|log| - 1];
      var item := Find(u.items, key);
      if u.at <= t && item.Some? then
        var effectiveAt := EffectiveAt(item.value, u.at);
        if effectiveAt <= t then Some(Shown(item.value.setting, effectiveAt)) else None
      else Replay(log[..|log| - 1], key, t)
  }

  /** The rows active for a key at an instant are exactly what `shown` says: none, or one. */
  ghost predicate Reads(rows: seq<Row>, key: Key, t: real, shown: Option<Shown>) {
    && (forall i :: 0 <= i < |rows| && rows[i].key == key && Active(rows[i], t) ==>
          shown == Some(Shown(rows[i].setting, rows[i].effectiveAt)))
    && (shown.Some? ==> exists i :: 0 <= i < |rows| && rows[i].key == key && Active(rows[i], t))
    && (forall i, j :: (0 <= i < |rows| && 0 <= j < |rows| && rows[i].key == rows[j].key == key
                        && Active(rows[i], t) && Active(rows[j], t)) ==> i == j)
  }

  ghost predicate DistinctKeys(u: Update) {
    forall i, j :: 0 <= i < j < |u.items| ==> u.items[i].key != u.items[j].key
  }

  ghost predicate DefaultTimes(u: Update) {
    forall i :: 0 <= i < |u.items| ==> u.items[i].effectiveAt.None?
  }

  ghost predicate InOrder(us: seq<Update>) {
    forall i, j :: 0 <= i <= j < |us| ==> us[i].at <= us[j].at
  }

  /** No request sets one key twice with times of its own. */
  ghost predicate WellKeyed(us: seq<Update>) {
    forall i :: 0 <= i < |us| ==> DistinctKeys(us[i]) || DefaultTimes(us[i])
  }

  /** With default times a request that names a key twice breaks the unique constraint. */
  lemma {:induction false} AcceptedAreDistinct(rows: seq<Row>, u: Update)
    requires Accepts(rows, u) && DefaultTimes(u)
    ensures DistinctKeys(u)
  {
    var rows', n := Updated(rows, u), |rows|;
    forall i, j | 0 <= i < j < |u.items| ensures u.items[i].key != u.items[j].key {
      assert !SameVersion(rows'[n + i], rows'[n + j]);
    }
  }

  /** Nothing decided after t reaches back to t. */
  predicate NotBackdated(u: Update, t: real) {
    u.at <= t || forall i :: 0 <= i < |u.items| ==> t < EffectiveAt(u.items[i], u.at)
  }

  ghost predicate ClosedBy(rows: seq<Row>, at: real) {
    forall i :: 0 <= i < |rows| && rows[i].supersededAt.Some? ==> rows[i].supersededAt.value <= at
  }

  lemma {:induction false} RowsClosedByNow(us: seq<Update>, at: real)
    requires InOrder(us) && (us != [] ==> us[|us| - 1].at <= at)
    ensures ClosedBy(Run(us).0, at)
    decreases |us|
  {
    if us != [] {
      RowsClosedByNow(us[..|us| - 1], us[|us| - 1].at);
    }
  }

  lemma {:induction false} FindInDistinct(u: Update, k: nat)
    requires DistinctKeys(u) && k < |u.items|
    ensures Find(u.items, u.items[k].key) == Some(u.items[k])
  {
    var found := Find(u.items, u.items[k].key);
    assert Names(u.items, u.items[k].key);
    var i :| 0 <= i < |u.items| && u.items[i] == found.value;
  }

  /** An update leaves alone the readings of keys it does not name, and those it does not reach. */
  lemma {:induction false} ReadsKept(rows: seq<Row>, u: Update, key: Key, t: real, shown: Option<Shown>)
    requires Reads(rows, key, t, shown)
    requires !Names(u.items, key) || (t < u.at && NotBackdated(u, t))
    ensures Reads(Updated(rows, u), key, t, shown)
  {
    var rows' := Updated(rows, u);
    forall i | |rows| <= i < |rows'| && rows'[i].key == key ensures !Active(rows'[i], t) {
      assert u.items[i - |rows|].key == key;
    }
    forall i | 0 <= i < |rows|
      ensures Same(rows'[i], rows[i]) && (rows[i].key == key ==> (Active(rows'[i], t) <==> Active(rows[i], t))) {}
    if shown.Some? {
      var i :| 0 <= i < |rows| && rows[i].key == key && Active(rows[i], t);
      assert rows'[i].key == key && Active(rows'[i], t);
    }
  }

  /** From its own instant on, an update alone decides the readings of the keys it names. */
  lemma {:induction false} ReadsDecided(rows: seq<Row>, u: Update, k: nat, t: real)
    requires ClosedBy(rows, u.at) && u.at <= t && DistinctKeys(u) && k < |u.items|
    ensures var e := EffectiveAt(u.items[k], u.at);
            var shown := if e <= t then Some(Shown(u.items[k].setting, e)) else None;
            Reads(Updated(rows, u), u.items[k].key, t, shown)
  {
    var rows', key := Updated(rows, u), u.items[k].key;
    forall i | 0 <= i < |rows'| && rows'[i].key == key && Active(rows'[i], t) ensures i == |rows| + k {
      if i < |rows| { assert Names(u.items, key); } else { assert u.items[i - |rows|].key == key; }
    }
    assert rows'[|rows| + k] == NewRows(u.items, u.at)[k];
  }

  /** At any instant no later update reaches back to, the active rows are a replay of the accepted
      updates up to that instant, at most one per key. With default effective times that is every
      instant; with arbitrary ones, every instant from the latest update on. */
  lemma {:induction false} ReadingIsReplay(us: seq<Update>, key: Key, t: real)
    requires InOrder(us) && WellKeyed(us) && forall i :: 0 <= i < |us| ==> NotBackdated(us[i], t)
    ensures Reads(Run(us).0, key, t, Replay(Run(us).1, key, t))
    decreases |us|
  {
    if us != [] {
      var before, u := us[..|us| - 1], us[|us| - 1];
      var (rows, log) := Run(before);
      ReadingIsReplay(before, key, t);
      if Accepts(rows, u) {
        if DefaultTimes(u) { AcceptedAreDistinct(rows, u); }
        assert (log + [u])[..|log|] == log;
        if u.at <= t && Names(u.items, key) {
          RowsClosedByNow(before, u.at);
          var k :| 0 <= k < |u.items| && u.items[k].key == key;
          FindInDistinct(u, k);
          ReadsDecided(rows, u, k, t);
        } else {
          ReadsKept(rows, u, key, t, Replay(log, key, t));
        }
      }
    }
  }

  // ---------- Gaps ----------

  ghost predicate HasActive(rows: seq<Row>, key: Key, t: real) {
    exists i :: 0 <= i < |rows| && rows[i].key == key && Active(rows[i], t)
  }

  /** The log has set the key by the instant. */
  ghost predicate SetBy(log: seq<Update>, key: Key, t: real) {
    exists i :: 0 <= i < |log| && log[i].at <= t && Names(log[i].items, key)
  }

  /** Update i sets the key, and no later one replaces that at the same instant. */
  ghost predicate Decides(log: seq<Update>, key: Key, i: nat)
    requires i < |log|
  {
    && Names(log[i].items, key)
    && forall j :: i < j < |log| && log[j].at == log[i].at ==> !Names(log[j].items, key)
  }

  predicate FutureDated(u: Update, key: Key) {
    var item := Find(u.items, key);
    item.Some? && u.at < EffectiveAt(item.value, u.at)
  }

  /** What the last update by an instant to name the key says is the replay at that instant. */
  lemma {:induction false} ReplayAtDecided(log: seq<Update>, key: Key, t: real, i: nat)
    requires i < |log| && log[i].at <= t && Names(log[i].items, key)
    requires forall j :: i < j < |log| && log[j].at <= t ==> !Names(log[j].items, key)
    ensures Replay(log, key, t).Some? <==> EffectiveAt(Find(log[i].items, key).value, log[i].at) <= t
    decreases |log|
  {
    if i < |log| - 1 { ReplayAtDecided(log[..|log| - 1], key, t, i); }
  }

  lemma {:induction false} LastToName(log: seq<Update>, key: Key, t: real) returns (i: nat)
    requires SetBy(log, key, t)
    ensures i < |log| && log[i].at <= t && Names(log[i].items, key)
    ensures forall j :: i < j < |log| && log[j].at <= t ==> !Names(log[j].items, key)
    decreases |log|
  {
    var n := |log| - 1;
    if log[n].at <= t && Names(log[n].items, key) {
      i := n;
    } else {
      var k :| 0 <= k < |log| && log[k].at <= t && Names(log[k].items, key);
      assert log[..n][k] == log[k];
      i := LastToName(log[..n], key, t);
    }
  }

  /** In a log in time order a key once set always shows a value exactly if no update that decides it
      is dated into the future. */
  lemma {:induction false} ReplayHasNoGapIff(log: seq<Update>, key: Key)
    requires InOrder(log)
    ensures (forall t :: SetBy(log, key, t) ==> Replay(log, key, t).Some?)
            <==> (forall i :: 0 <= i < |log| && Decides(log, key, i) ==> !FutureDated(log[i], key))
  {
    if i :| 0 <= i < |log| && Decides(log, key, i) && FutureDated(log[i], key) {
      ReplayAtDecided(log, key, log[i].at, i);
      assert SetBy(log, key, log[i].at);
    } else {
      forall t | SetBy(log, key, t) ensures Replay(log, key, t).Some? {
        var i := LastToName(log, key, t);
        assert Decides(log, key, i);
        ReplayAtDecided(log, key, t, i);
      }
    }
  }

  ghost predicate NeverBackdated(us: seq<Update>) {
    forall i, k :: 0 <= i < |us| && 0 <= k < |us[i].items| ==> us[i].at <= EffectiveAt(us[i].items[k], us[i].at)
  }

  lemma {:induction false} LogInOrder(us: seq<Update>)
    requires InOrder(us)
    ensures InOrder(Run(us).1)
    ensures us != [] ==> forall i :: 0 <= i < |Run(us).1| ==> Run(us).1[i].at <= us[|us| - 1].at
    decreases |us|
  {
    if us != [] {
      var before, u := us[..|us| - 1], us[|us| - 1];
      LogInOrder(before);
      var log := Run(before).1;
      assert forall i :: 0 <= i < |log| ==> log[i].at <= u.at by {
        assert before != [] ==> before[|before| - 1].at <= u.at;
      }
    }
  }

  /** As long as nothing is backdated, a key once set has an active row at every later instant exactly
      if no accepted update that decides it is dated into the future. */
  lemma {:induction false} AlwaysActiveIffNotFutureDated(us: seq<Update>, key: Key)
    requires InOrder(us) && WellKeyed(us) && NeverBackdated(us)
    ensures var (rows, log) := Run(us);
            (forall t :: SetBy(log, key, t) ==> HasActive(rows, key, t))
            <==> (forall i :: 0 <= i < |log| && Decides(log, key, i) ==> !FutureDated(log[i], key))
  {
    var (rows, log) := Run(us);
    LogInOrder(us);
    ReplayHasNoGapIff(log, key);
    forall t ensures HasActive(rows, key, t) <==> Replay(log, key, t).Some? {
      ReadingIsReplay(us, key, t);
    }
  }

  // ---------- Earlier readings, open rows ----------

  function Reading(rows: seq<Row>, t: real): set<(Key, Shown)> {
    set i | 0 <= i < |rows| && Active(rows[i], t) :: (rows[i].key, Shown(rows[i].setting, rows[i].effectiveAt))
  }

  /** An accepted update changes the reading at an earlier instant exactly when it is backdated to
      that instant or before. */
  lemma {:induction false} EarlierReadingKeptIffNotBackdated(rows: seq<Row>, u: Update, t: real)
    requires t < u.at && Accepts(rows, u)
    ensures Reading(Apply(rows, u), t) == Reading(rows, t) <==> NotBackdated(u, t)
  {
    var rows' := Updated(rows, u);
    forall i | 0 <= i < |rows|
      ensures Same(rows'[i], rows[i]) && (Active(rows'[i], t) <==> Active(rows[i], t)) {}
    if NotBackdated(u, t) {
      forall i | |rows| <= i < |rows'| ensures !Active(rows'[i], t) {
        assert t < EffectiveAt(u.items[i - |rows|], u.at);
      }
      forall e | e in Reading(rows, t) ensures e in Reading(rows', t) {
        var i :| 0 <= i < |rows| && Active(rows[i], t)
                 && e == (rows[i].key, Shown(rows[i].setting, rows[i].effectiveAt));
        assert Active(rows'[i], t);
      }
    } else {
      var k :| 0 <= k < |u.items| && EffectiveAt(u.items[k], u.at) <= t;
      var n := |rows| + k;
      assert rows'[n] == NewRows(u.items, u.at)[k] && Active(rows'[n], t);
      var e := (rows'[n].key, Shown(rows'[n].setting, rows'[n].effectiveAt));
      assert e in Reading(rows', t);
      forall i | 0 <= i < |rows| ensures e != (rows[i].key, Shown(rows[i].setting, rows[i].effectiveAt)) {
        assert !SameVersion(rows'[i], rows'[n]);
      }
    }
  }

  /** Rows not superseded: at most one per key. */
  ghost predicate OneOpenRow(rows: seq<Row>) {
    forall i, j :: 0 <= i < j < |rows| && rows[i].supersededAt.None? && rows[j].supersededAt.None? ==>
      rows[i].key != rows[j].key
  }

  /** The select inside the loop does not see rows the same request has added, so a key given twice
      leaves two open rows. Distinct keys are exactly what keeps one. */
  lemma {:induction false} OneOpenRowIffDistinctKeys(rows: seq<Row>, u: Update)
    requires OneOpenRow(rows)
    ensures OneOpenRow(Updated(rows, u)) <==> DistinctKeys(u)
  {
    var rows', n := Updated(rows, u), |rows|;
    assert forall k :: 0 <= k < |u.items| ==> rows'[n + k].supersededAt.None? && rows'[n + k].key == u.items[k].key;
    if DistinctKeys(u) {
      forall i, j | 0 <= i < j < |rows'| && rows'[i].supersededAt.None? && rows'[j].supersededAt.None?
        ensures rows'[i].key != rows'[j].key
      {
        if n <= j {
          assert rows'[j].key == u.items[j - n].key;
          if n <= i { assert rows'[i].key == u.items[i - n].key; }
        }
      }
    } else {
      var a, b :| 0 <= a < b < |u.items| && u.items[a].key == u.items[b].key;
      assert rows'[n + a].key == rows'[n + b].key;
    }
  }

  /** A request that sets one key twice, with times of its own, is accepted; from the later of the two
      times on, both rows are active. */
  lemma {:induction false} KeySetTwiceReadsTwice(key: Key, a: Setting, b: Setting, at: real, later: real)
    returns (u: Update)
    requires at < later
    ensures u.at == at && Accepts([], u) && !DistinctKeys(u)
    ensures var rows := Run([u]).0;
            |rows| == 2 && rows[0].key == rows[1].key == key && rows[0].setting == a && rows[1].setting == b
            && forall t :: later <= t ==> Active(rows[0], t) && Active(rows[1], t)
  {
    u := Update(at, [Item(key, a, None), Item(key, b, Some(later))]);
    assert u.items[0].key == u.items[1].key && [u][..0] == [];
    assert Supersede([], u.items, at) == [];
  }

  function OneItem(key: Key, setting: Setting, at: real, effectiveAt: Option<real>): Update {
    Update(at, [Item(key, setting, effectiveAt)])
  }

  lemma {:induction false} FirstSetting(u: Update)
    requires |u.items| == 1
    ensures Run([u]).0 == NewRows(u.items, u.at)
  {
    assert [u][..0] == [] && Supersede([], u.items, u.at) == [];
  }

  lemma {:induction false} NextSetting(row: Row, u: Update)
    requires row.supersededAt.None? && |u.items| == 1 && u.items[0].key == row.key
    requires row.effectiveAt != EffectiveAt(u.items[0], u.at)
    ensures Apply([row], u) == [row.(supersededAt := Some(u.at)), NewRows(u.items, u.at)[0]]
  {
    assert Names(u.items, row.key);
    assert Supersede([row], u.items, u.at) == [row.(supersededAt := Some(u.at))];
  }

  /** Two settings of one key, the second requested after the first: the first shows from its own time on,
      which is its request's if it gives none, until the second is requested; the second from its own time
      on. Nothing else is ever shown. */
  lemma {:induction false} TwoSettingsRead(key: Key, a: Setting, b: Setting, at1: real, at2: real,
                                           e1: Option<real>, e2: Option<real>, t: real)
    requires at1 < at2
    requires (if e1.Some? then e1.value else at1) != (if e2.Some? then e2.value else at2)
    ensures var rows := Run([OneItem(key, a, at1, e1), OneItem(key, b, at2, e2)]).0;
            && |rows| == 2
            && rows[0] == Row(key, a, if e1.Some? then e1.value else at1, Some(at2))
            && rows[1] == Row(key, b, if e2.Some? then e2.value else at2, None)
            && (Active(rows[0], t) <==> rows[0].effectiveAt <= t < at2)
            && (Active(rows[1], t) <==> rows[1].effectiveAt <= t)
  {
    var u1, u2 := OneItem(key, a, at1, e1), OneItem(key, b, at2, e2);
    assert [u1, u2][..1] == [u1];
    FirstSetting(u1);
    var row := NewRows(u1.items, at1)[0];
    assert NewRows(u1.items, at1) == [row];
    NextSetting(row, u2);
  }

  /** An update supersedes exactly the open rows of the keys it names, at its own instant. */
  lemma {:induction false} SupersedesNamedKeys(rows: seq<Row>, u: Update, i: nat)
    requires i < |rows|
    ensures |Updated(rows, u)| == |rows| + |u.items|
    ensures Updated(rows, u)[i] ==
            if rows[i].supersededAt.None? && exists k :: 0 <= k < |u.items| && u.items[k].key == rows[i].key
            then Row(rows[i].key, rows[i].setting, rows[i].effectiveAt, Some(u.at)) else rows[i]
  {
  }

  // ---------- The endpoints ----------

  class EntitlementTable {
    var rows: seq<Row>

    constructor ()
      ensures rows == []
    {
      rows := [];
    }

    /** Both update endpoints; the per-tier one passes items that all name its tier. */
    method UpdateEntitlements(u: Update) returns (accepted: bool)
      modifies this
      ensures rows == Apply(old(rows), u)
      ensures accepted <==> Accepts(old(rows), u)
    {
      var session, added := rows, [];  // stored rows as edited so far, rows not flushed yet
      for k := 0 to |u.items|
        invariant rows == old(rows) && session == Supersede(rows, u.items[..k], u.at)
        invariant added == NewRows(u.items[..k], u.at)
      {
        var item := u.items[k];
        ghost var before := session;
        for i := 0 to |rows|
          invariant rows == old(rows) && |session| == |rows|
          invariant forall j :: 0 <= j < |rows| ==>
            session[j] == if j < i then Closed(rows[j], u.items[..k + 1], u.at) else before[j]
        {
          NamesLast(u.items, k, rows[i].key);
          if rows[i].key == item.key && rows[i].supersededAt.None? {  // the select reads stored rows
            session := session[i := session[i].(supersededAt := Some(u.at))];
          }
        }
        var effectiveAt := if item.effectiveAt.Some? then item.effectiveAt.value else u.at;
        added := added + [Row(item.key, item.setting, effectiveAt, None)];
      }
      assert u.items[..|u.items|] == u.items;
      accepted := VersionsUnique(session + added);
      if accepted {
        rows := session + added;
      }
    }

    /** The nested dictionary shows a tier and axis exactly when a row is active for them, and then
        the values of such a row; where the active rows read as a replay, it shows that. */
    method GetTiers(now: real) returns (tiers: map<string, map<string, Shown>>)
      ensures forall key: Key, shown :: Reads(rows, key, now, shown) ==>
                shown == if key.tier in tiers && key.axis in tiers[key.tier]
                         then Some(tiers[key.tier][key.axis]) else None
      ensures forall key: Key :: (key.tier in tiers && key.axis in tiers[key.tier]) <==>
                (exists i :: 0 <= i < |rows| && rows[i].key == key && Active(rows[i], now))
      ensures forall key: Key :: key.tier in tiers && key.axis in tiers[key.tier] ==>
                exists i :: 0 <= i < |rows| && rows[i].key == key && Active(rows[i], now)
                         && tiers[key.tier][key.axis] == Shown(rows[i].setting, rows[i].effectiveAt)
    {
      tiers := map[];
      for n := 0 to |rows|
        invariant forall key: Key :: (key.tier in tiers && key.axis in tiers[key.tier]) <==>
          (exists i :: 0 <= i < n && rows[i].key == key && Active(rows[i], now))
        invariant forall key: Key :: key.tier in tiers && key.axis in tiers[key.tier] ==>
          exists i :: 0 <= i < n && rows[i].key == key && Active(rows[i], now)
                   && tiers[key.tier][key.axis] == Shown(rows[i].setting, rows[i].effectiveAt)
      {
        var cfg := rows[n];
        if Active(cfg, now) {
          var axes := if cfg.key.tier in tiers then tiers[cfg.key.tier] else map[];
          tiers := tiers[cfg.key.tier := axes[cfg.key.axis := Shown(cfg.setting, cfg.effectiveAt)]];
        }
      }
    }
  }
}
