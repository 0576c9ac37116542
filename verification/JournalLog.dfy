/** A numbered log with expiring records: allocation, descending pages, cursor walks and the
    capped windowed count. The handled log and the callback log of a group and the host-wide
    unmatched log are each one of these. */
module JournalLog {
  import opened Wrappers

  type RecordId = int
  type GroupId = int
  type Time = int

  const MAX_LIMIT := 100
  const SCAN_CAP := 2000

  datatype Record = Record(id: RecordId, number: int, group: GroupId, createdAt: Time)

  /** `byNumber` leads to record ids; a record may be gone while its entry is left, or both. */
  datatype Log = Log(counter: nat, byNumber: map<int, RecordId>, records: map<RecordId, Record>)

  const EMPTY := Log(0, map[], map[])

  /** `None` lets every group through. */
  type Visible = Option<set<GroupId>>

  predicate Shows(visible: Visible, r: Record) {
    visible.None? || r.group in visible.value
  }

  function Get(log: Log, n: int): Option<Record> {
    if n in log.byNumber && log.byNumber[n] in log.records then Some(log.records[log.byNumber[n]]) else None
  }

  predicate Listed(log: Log, n: int, visible: Visible) {
    Get(log, n).Some? && Shows(visible, Get(log, n).value)
  }

  // ---- What can happen to a log ---------------------------------------------------

  function Appended(log: Log, id: RecordId, group: GroupId, now: Time): Log {
    var n := log.counter + 1;
    Log(n, log.byNumber[n := id], log.records[id := Record(id, n, group, now)])
  }

  datatype Change = Append(id: RecordId, group: GroupId, now: Time) | ExpireRecord(id: RecordId) | ExpireEntry(n: int)

  function Changed(log: Log, c: Change): Log {
    match c
    case Append(id, group, now) => Appended(log, id, group, now)
    case ExpireRecord(id) => log.(records := log.records - {id})
    case ExpireEntry(n) => log.(byNumber := log.byNumber - {n})
  }

  /** Record ids are generated, never reused. */
  ghost predicate Run(log: Log, changes: seq<Change>, end: Log)
    decreases |changes|
  {
    if changes == [] then log == end
    else
      && (changes[0].Append? ==> changes[0].id !in log.records && changes[0].id !in log.byNumber.Values)
      && Run(Changed(log, changes[0]), changes[1..], end)
  }

  /** Numbers are the counter's, and a record read by number carries that number. */
  ghost predicate Ok(log: Log) {
    && (forall n :: n in log.byNumber ==> 1 <= n <= log.counter)
    && (forall n :: Get(log, n).Some? ==> Get(log, n).value.number == n)
  }

  /** What was numbered before stays as it was or goes; new records are numbered above. */
  ghost predicate Evolves(log: Log, later: Log) {
    && log.counter <= later.counter
    && (forall n :: n <= log.counter && Get(later, n).Some? ==> Get(later, n) == Get(log, n))
  }

  lemma ChangeEvolves(log: Log, c: Change)
    requires Ok(log) && (c.Append? ==> c.id !in log.records && c.id !in log.byNumber.Values)
    ensures Ok(Changed(log, c)) && Evolves(log, Changed(log, c))
  {
    var next := Changed(log, c);
    forall n | Get(next, n).Some? && !(c.Append? && n == next.counter) ensures Get(next, n) == Get(log, n) {
      assert n in log.byNumber;
      assert log.byNumber[n] in log.byNumber.Values;
    }
  }

  lemma {:induction false} RunEvolves(log: Log, changes: seq<Change>, end: Log)
    requires Ok(log) && Run(log, changes, end)
    ensures Ok(end) && Evolves(log, end)
    decreases |changes|
  {
    if changes != [] {
      var next := Changed(log, changes[0]);
      ChangeEvolves(log, changes[0]);
      RunEvolves(next, changes[1..], end);
    }
  }

  // ---- What a log holds, change by change -------------------------------------------

  function Appends(changes: seq<Change>): nat
    decreases |changes|
  {
    if changes == [] then 0
    else Appends(changes[..|changes| - 1]) + if changes[|changes| - 1].Append? then 1 else 0
  }

  /** The record of the n-th append, unless it or its entry has expired since. */
  function Kept(changes: seq<Change>, n: int): Option<Record>
    decreases |changes|
  {
    if changes == [] then None
    else
      var before, last := changes[..|changes| - 1], changes[|changes| - 1];
      if last.Append? && Appends(before) + 1 == n then Some(Record(last.id, n, last.group, last.now))
      else
        var kept := Kept(before, n);
        if last == ExpireEntry(n) || (kept.Some? && last == ExpireRecord(kept.value.id)) then None else kept
  }

  ghost predicate OwnIds(log: Log) {
    forall id :: id in log.records ==> log.records[id].id == id
  }

  lemma ChangeKeeps(log: Log, c: Change, n: int)
    requires Ok(log) && OwnIds(log) && (c.Append? ==> c.id !in log.records && c.id !in log.byNumber.Values)
    ensures OwnIds(Changed(log, c)) && Changed(log, c).counter == log.counter + if c.Append? then 1 else 0
    ensures Get(Changed(log, c), n) ==
      if c.Append? && log.counter + 1 == n then Some(Record(c.id, n, c.group, c.now))
      else if c == ExpireEntry(n) || (Get(log, n).Some? && c == ExpireRecord(Get(log, n).value.id)) then None
      else Get(log, n)
  {
    if n in log.byNumber {
      var id := log.byNumber[n];
      assert id in log.byNumber.Values;
      assert id in log.records ==> log.records[id].id == id;
    }
  }

  lemma {:induction false} RunSplits(log: Log, changes: seq<Change>, end: Log) returns (mid: Log)
    requires changes != [] && Run(log, changes, end)
    ensures Run(log, changes[..|changes| - 1], mid)
    ensures
      var c := changes[|changes| - 1];
      (c.Append? ==> c.id !in mid.records && c.id !in mid.byNumber.Values) && end == Changed(mid, c)
    decreases |changes|
  {
    var n := |changes| - 1;
    if n == 0 {
      mid := log;
      assert Run(Changed(log, changes[0]), changes[1..], end);
    } else {
      mid := RunSplits(Changed(log, changes[0]), changes[1..], end);
      assert changes[1..][..n - 1] == changes[..n][1..] && changes[1..][n - 1] == changes[n];
      assert changes[..n][0] == changes[0];
    }
  }

  /** Over every run, reading by number gives exactly the record of that append, as it was made, for as
      long as neither it nor its entry has expired. */
  lemma {:induction false} LogFollowsChanges(changes: seq<Change>, end: Log, n: int)
    requires Run(EMPTY, changes, end)
    ensures Ok(end) && OwnIds(end) && end.counter == Appends(changes) && Get(end, n) == Kept(changes, n)
    decreases |changes|
  {
    RunEvolves(EMPTY, changes, end);
    if changes != [] {
      var mid := RunSplits(EMPTY, changes, end);
      LogFollowsChanges(changes[..|changes| - 1], mid, n);
      ChangeKeeps(mid, changes[|changes| - 1], n);
    }
  }

  // ---- One page -----------------------------------------------------------------------

  function Clamp(limit: int): int {
    if limit < 1 then 1 else if limit > MAX_LIMIT then MAX_LIMIT else limit
  }

  /** Down from `n`, the first `limit` records that show. */
  function Walk(log: Log, n: int, limit: int, visible: Visible): seq<Record>
    decreases if n < 0 then 0 else n
  {
    if n <= 0 || limit <= 0 then []
    else if Listed(log, n, visible) then [Get(log, n).value] + Walk(log, n - 1, limit - 1, visible)
    else Walk(log, n - 1, limit, visible)
  }

  function Start(log: Log, before: Option<nat>): nat {
    match before
    case None => log.counter
    case Some(b) => if b == 0 then 0 else b - 1
  }

  function Page(log: Log, before: Option<nat>, limit: int, visible: Visible): seq<Record> {
    Walk(log, Start(log, before), Clamp(limit), visible)
  }

  /** Where the caller is told to go on. */
  function NextBefore(page: seq<Record>): Option<nat> {
    if page != [] && page[|page| - 1].number > 1 then Some(page[|page| - 1].number) else None
  }

  predicate Descending(rs: seq<Record>) {
    forall i, j :: 0 <= i < j < |rs| ==> rs[i].number > rs[j].number
  }

  lemma {:induction false} WalkIsExact(log: Log, n: int, limit: int, visible: Visible)
    requires Ok(log)
    ensures
      var page := Walk(log, n, limit, visible);
      && Descending(page) && |page| <= (if limit < 0 then 0 else limit)
      && (forall r :: r in page ==> 1 <= r.number <= n && Get(log, r.number) == Some(r) && Shows(visible, r))
      && (forall m :: 1 <= m <= n && Listed(log, m, visible) ==>
            Get(log, m).value in page || (|page| == limit && forall r :: r in page ==> m < r.number) || limit <= 0)
    decreases if n < 0 then 0 else n
  {
    if n > 0 && limit > 0 {
      var shows := Listed(log, n, visible);
      var rest := Walk(log, n - 1, if shows then limit - 1 else limit, visible);
      WalkIsExact(log, n - 1, if shows then limit - 1 else limit, visible);
      if shows {
        var page := [Get(log, n).value] + rest;
        assert forall r :: r in rest ==> r in page;
      }
    }
  }

  predicate Precedes(log: Log, before: Option<nat>, m: int) {
    if before.Some? then m < before.value else m <= log.counter
  }

  /** A page holds records of the groups asked for only, as many as it was asked for, but at least one
      and at most a hundred, or else every such record from where it starts. */
  lemma PageFills(log: Log, before: Option<nat>, limit: int, groups: set<GroupId>, everyone: bool)
    requires Ok(log)
    ensures
      var page := Page(log, before, limit, if everyone then None else Some(groups));
      var want := if limit < 1 then 1 else if limit > 100 then 100 else limit;
      && |page| <= want && (forall r :: r in page ==> everyone || r.group in groups)
      && (|page| < want ==>
            forall m :: (1 <= m && Precedes(log, before, m) && Get(log, m).Some?
                         && (everyone || Get(log, m).value.group in groups)) ==> Get(log, m).value in page)
  {
    WalkIsExact(log, Start(log, before), Clamp(limit), if everyone then None else Some(groups));
  }

  // ---- Walking the pages while the log changes -----------------------------------------

  /** The pages a caller gets who starts at `before` and goes on where told, the i-th request
      seeing the i-th of `logs` and asking for the i-th of `limits`. */
  function Follow(logs: seq<Log>, limits: seq<int>, before: Option<nat>, visible: Visible): seq<Record>
    requires |limits| == |logs|
    decreases |logs|
  {
    if logs == [] then []
    else
      var page := Page(logs[0], before, limits[0], visible);
      page + if NextBefore(page).None? then [] else Follow(logs[1..], limits[1..], NextBefore(page), visible)
  }

  /** The walk was told to stop within these requests. */
  ghost predicate Finished(logs: seq<Log>, limits: seq<int>, before: Option<nat>, visible: Visible)
    requires |limits| == |logs|
    decreases |logs|
  {
    logs != [] &&
    var page := Page(logs[0], before, limits[0], visible);
    NextBefore(page).None? || Finished(logs[1..], limits[1..], NextBefore(page), visible)
  }

  ghost predicate AllOk(logs: seq<Log>) {
    forall i :: 0 <= i < |logs| ==> Ok(logs[i])
  }

  /** Each cursor is below the one before, so a walk ends within as many requests as its start. */
  lemma {:induction false} WalkTerminates(logs: seq<Log>, limits: seq<int>, before: Option<nat>, visible: Visible)
    requires |limits| == |logs| && AllOk(logs) && logs != []
    requires |logs| > Start(logs[0], before)
    ensures Finished(logs, limits, before, visible)
    decreases |logs|
  {
    var page := Page(logs[0], before, limits[0], visible);
    WalkIsExact(logs[0], Start(logs[0], before), Clamp(limits[0]), visible);
    if NextBefore(page).Some? {
      assert page[|page| - 1] in page;
      WalkTerminates(logs[1..], limits[1..], NextBefore(page), visible);
    }
  }

  /** Whatever pages come, they are in strictly descending order, so nothing is seen twice. */
  lemma {:induction false} FollowDescends(logs: seq<Log>, limits: seq<int>, before: Option<nat>, visible: Visible)
    requires |limits| == |logs| && AllOk(logs)
    ensures Descending(Follow(logs, limits, before, visible))
    ensures forall r :: r in Follow(logs, limits, before, visible) ==>
      1 <= r.number && (before.Some? ==> r.number < before.value)
    decreases |logs|
  {
    if logs != [] {
      var page := Page(logs[0], before, limits[0], visible);
      var next := NextBefore(page);
      WalkIsExact(logs[0], Start(logs[0], before), Clamp(limits[0]), visible);
      if next.Some? {
        assert page[|page| - 1] in page;
        FollowDescends(logs[1..], limits[1..], next, visible);
        PagesJoin(page, Follow(logs[1..], limits[1..], next, visible));
      }
    }
  }

  /** One of the requests saw this record. */
  ghost predicate StoredInOne(logs: seq<Log>, r: Record) {
    exists i :: 0 <= i < |logs| && Get(logs[i], r.number) == Some(r)
  }

  /** Everything seen shows and was stored when its page was read. */
  lemma {:induction false} FollowIsStored(logs: seq<Log>, limits: seq<int>, before: Option<nat>, visible: Visible,
                                          r: Record)
    requires |limits| == |logs| && AllOk(logs) && r in Follow(logs, limits, before, visible)
    ensures Shows(visible, r) && StoredInOne(logs, r)
    decreases |logs|
  {
    var page := Page(logs[0], before, limits[0], visible);
    WalkIsExact(logs[0], Start(logs[0], before), Clamp(limits[0]), visible);
    if r in page {
      assert Get(logs[0], r.number) == Some(r);
    } else {
      FollowIsStored(logs[1..], limits[1..], NextBefore(page), visible, r);
      var i :| 0 <= i < |logs[1..]| && Get(logs[1..][i], r.number) == Some(r);
      assert Get(logs[i + 1], r.number) == Some(r);
    }
  }

  lemma PagesJoin(page: seq<Record>, rest: seq<Record>)
    requires Descending(page) && Descending(rest) && page != []
    requires forall r :: r in rest ==> r.number < page[|page| - 1].number
    ensures Descending(page + rest)
  {
    forall i, j | 0 <= i < j < |page + rest| ensures (page + rest)[i].number > (page + rest)[j].number {
      if i < |page| <= j { assert rest[j - |page|] in rest; }
    }
  }

  /** A record that shows and is stored throughout a finished walk is in it. */
  lemma {:induction false} FollowIsComplete(logs: seq<Log>, limits: seq<int>, before: Option<nat>, visible: Visible,
                                            r: Record)
    requires |limits| == |logs| && AllOk(logs) && Finished(logs, limits, before, visible)
    requires Shows(visible, r) && 1 <= r.number <= Start(logs[0], before)
    requires forall i :: 0 <= i < |logs| ==> Get(logs[i], r.number) == Some(r)
    ensures r in Follow(logs, limits, before, visible)
    decreases |logs|
  {
    var page := Page(logs[0], before, limits[0], visible);
    WalkIsExact(logs[0], Start(logs[0], before), Clamp(limits[0]), visible);
    assert Listed(logs[0], r.number, visible);
    if r !in page {
      assert page != [] && r.number < page[|page| - 1].number;
      FollowIsComplete(logs[1..], limits[1..], NextBefore(page), visible, r);
    }
  }

  /** Two descending sequences with the same records are the same. */
  lemma {:induction false} DescendingIsUnique(a: seq<Record>, b: seq<Record>)
    requires Descending(a) && Descending(b) && forall r :: r in a <==> r in b
    ensures a == b
    decreases |a|
  {
    assert a != [] ==> a[0] in a;
    assert b != [] ==> b[0] in b;
    if a != [] {
      assert a[0] == b[0];
      forall r ensures r in a[1..] <==> r in b[1..] {
        assert r in a[1..] ==> r in a && r != a[0];
        assert r in b[1..] ==> r in b && r != b[0];
      }
      DescendingIsUnique(a[1..], b[1..]);
    }
  }

  /** Every record of the log that shows, newest first. */
  function All(log: Log, visible: Visible): seq<Record> {
    Walk(log, log.counter, log.counter, visible)
  }

  /** No record of the first log goes while it is walked; new ones may come. */
  ghost predicate OnlyGrows(logs: seq<Log>) {
    forall i :: 0 <= i < |logs| ==>
      Evolves(logs[0], logs[i]) && forall n :: Get(logs[0], n).Some? ==> Get(logs[i], n) == Get(logs[0], n)
  }

  /** Whatever the gaps, the limits and the visible groups, and however many records are appended
      meanwhile, a finished walk from the top is every visible stored record exactly once, newest first. */
  lemma WalkFromTopIsExact(logs: seq<Log>, limits: seq<int>, visible: Visible)
    requires |limits| == |logs| && AllOk(logs) && OnlyGrows(logs) && Finished(logs, limits, None, visible)
    ensures Follow(logs, limits, None, visible) == All(logs[0], visible)
  {
    var seen, all := Follow(logs, limits, None, visible), All(logs[0], visible);
    FollowDescends(logs, limits, None, visible);
    FollowBelowTop(logs, limits, visible);
    WalkIsExact(logs[0], logs[0].counter, logs[0].counter, visible);
    forall r ensures r in seen <==> r in all {
      if r in all {
        FollowIsComplete(logs, limits, None, visible, r);
      }
      if r in seen {
        FollowIsStored(logs, limits, None, visible, r);
        var i :| 0 <= i < |logs| && Get(logs[i], r.number) == Some(r);
        assert Get(logs[0], r.number) == Some(r);
        AllHolds(logs[0], visible, r.number);
      }
    }
    DescendingIsUnique(seen, all);
  }

  /** What happens to the log between one request and the next. */
  ghost predicate Between(logs: seq<Log>, changes: seq<seq<Change>>) {
    && logs != [] && |changes| == |logs| - 1
    && forall i :: 0 <= i < |changes| ==> Run(logs[i], changes[i], logs[i + 1])
  }

  ghost predicate OnlyAppends(changes: seq<Change>) {
    forall i :: 0 <= i < |changes| ==> changes[i].Append?
  }

  lemma {:induction false} AppendsKeepRecords(log: Log, changes: seq<Change>, end: Log)
    requires Ok(log) && Run(log, changes, end) && OnlyAppends(changes)
    ensures Ok(end) && Evolves(log, end) && forall n :: Get(log, n).Some? ==> Get(end, n) == Get(log, n)
    decreases |changes|
  {
    if changes != [] {
      var c := changes[0];
      var next := Changed(log, c);
      ChangeEvolves(log, c);
      forall n | Get(log, n).Some? ensures Get(next, n) == Get(log, n) {
        assert log.byNumber[n] in log.byNumber.Values;
      }
      AppendsKeepRecords(next, changes[1..], end);
    }
  }

  lemma {:induction false} RequestsAreOk(logs: seq<Log>, changes: seq<seq<Change>>, i: nat)
    requires Between(logs, changes) && Ok(logs[0]) && i < |logs|
    ensures Ok(logs[i]) && Evolves(logs[0], logs[i])
    ensures (forall j :: 0 <= j < |changes| ==> OnlyAppends(changes[j])) ==>
      forall n :: Get(logs[0], n).Some? ==> Get(logs[i], n) == Get(logs[0], n)
  {
    if i > 0 {
      RequestsAreOk(logs, changes, i - 1);
      RunEvolves(logs[i - 1], changes[i - 1], logs[i]);
      if OnlyAppends(changes[i - 1]) {
        AppendsKeepRecords(logs[i - 1], changes[i - 1], logs[i]);
      }
    }
  }

  /** Over any run of the log in which records only arrive between the requests: a finished walk from
      the top is every visible record stored at its start, exactly once, newest first. */
  lemma WalkDuringAppendsIsExact(logs: seq<Log>, changes: seq<seq<Change>>, limits: seq<int>, visible: Visible)
    requires Between(logs, changes) && Ok(logs[0]) && forall j :: 0 <= j < |changes| ==> OnlyAppends(changes[j])
    requires |limits| == |logs| && Finished(logs, limits, None, visible)
    ensures Follow(logs, limits, None, visible) == All(logs[0], visible)
  {
    forall i | 0 <= i < |logs| ensures Ok(logs[i]) && Evolves(logs[0], logs[i]) { RequestsAreOk(logs, changes, i); }
    forall i, n | 0 <= i < |logs| && Get(logs[0], n).Some? ensures Get(logs[i], n) == Get(logs[0], n) {
      RequestsAreOk(logs, changes, i);
    }
    WalkFromTopIsExact(logs, limits, visible);
  }

  /** Over any run whatever, with records expiring too: a finished walk from the top has every visible
      record that is still stored at its end and was at its start, each once, and nothing that was not
      stored at its start. */
  lemma WalkDuringChangesIsSound(logs: seq<Log>, changes: seq<seq<Change>>, limits: seq<int>, visible: Visible,
                                 r: Record)
    requires Between(logs, changes) && Ok(logs[0])
    requires |limits| == |logs| && Finished(logs, limits, None, visible)
    ensures Descending(Follow(logs, limits, None, visible))
    ensures r in Follow(logs, limits, None, visible) ==> r in All(logs[0], visible)
    ensures r in All(logs[0], visible) && Get(logs[|logs| - 1], r.number) == Some(r) ==>
      r in Follow(logs, limits, None, visible)
  {
    forall i | 0 <= i < |logs| ensures Ok(logs[i]) && Evolves(logs[0], logs[i]) { RequestsAreOk(logs, changes, i); }
    FollowDescends(logs, limits, None, visible);
    WalkIsExact(logs[0], logs[0].counter, logs[0].counter, visible);
    if r in Follow(logs, limits, None, visible) {
      FollowBelowTop(logs, limits, visible);
      FollowIsStored(logs, limits, None, visible, r);
      var i :| 0 <= i < |logs| && Get(logs[i], r.number) == Some(r);
      AllHolds(logs[0], visible, r.number);
    }
    if r in All(logs[0], visible) && Get(logs[|logs| - 1], r.number) == Some(r) {
      forall i | 0 <= i < |logs| ensures Get(logs[i], r.number) == Some(r) {
        StoredThroughout(logs, changes, r, i);
      }
      FollowIsComplete(logs, limits, None, visible, r);
    }
  }

  /** What is still there at the end was there all along. */
  lemma {:induction false} StoredThroughout(logs: seq<Log>, changes: seq<seq<Change>>, r: Record, i: nat)
    requires Between(logs, changes) && Ok(logs[0]) && r.number <= logs[0].counter
    requires i < |logs| && Get(logs[|logs| - 1], r.number) == Some(r)
    ensures Get(logs[i], r.number) == Some(r)
    decreases |logs| - i
  {
    if i < |logs| - 1 {
      StoredThroughout(logs, changes, r, i + 1);
      RequestsAreOk(logs, changes, i);
      RunEvolves(logs[i], changes[i], logs[i + 1]);
    }
  }

  lemma FollowBelowTop(logs: seq<Log>, limits: seq<int>, visible: Visible)
    requires |limits| == |logs| && AllOk(logs) && logs != []
    ensures forall r :: r in Follow(logs, limits, None, visible) ==> 1 <= r.number <= logs[0].counter
  {
    var page := Page(logs[0], None, limits[0], visible);
    WalkIsExact(logs[0], logs[0].counter, Clamp(limits[0]), visible);
    if NextBefore(page).Some? {
      assert page[|page| - 1] in page;
      FollowDescends(logs[1..], limits[1..], NextBefore(page), visible);
    }
  }

  lemma AllHolds(log: Log, visible: Visible, n: int)
    requires Ok(log) && 1 <= n <= log.counter && Listed(log, n, visible)
    ensures Get(log, n).value in All(log, visible)
  {
    WalkFull(log, log.counter, log.counter, visible, n);
  }

  lemma {:induction false} WalkFull(log: Log, from: int, limit: int, visible: Visible, n: int)
    requires 1 <= n <= from <= limit && Listed(log, n, visible)
    ensures Get(log, n).value in Walk(log, from, limit, visible)
    decreases from
  {
    if n < from {
      WalkFull(log, from - 1, if Listed(log, from, visible) then limit - 1 else limit, visible, n);
    }
  }

  // ---- The windowed count -----------------------------------------------------------------

  /** Down from `n` over at most `left` numbers: how many show in the window, and whether it was
      `left` running out that ended the walk. A record older than the window ends it too. */
  function Count(log: Log, n: int, left: nat, cutoff: Time, visible: Visible): (nat, bool)
    decreases left
  {
    if n <= 0 || left == 0 then (0, n > 0)
    else if Get(log, n).Some? && Get(log, n).value.createdAt < cutoff then (0, false)
    else
      var (more, saturated) := Count(log, n - 1, left - 1, cutoff, visible);
      (more + if Listed(log, n, visible) then 1 else 0, saturated)
  }

  predicate InWindow(log: Log, n: int, cutoff: Time, visible: Visible) {
    Listed(log, n, visible) && Get(log, n).value.createdAt >= cutoff
  }

  /** How many stored records numbered up to `n` show and are inside the window. */
  function Inside(log: Log, n: int, cutoff: Time, visible: Visible): nat
    decreases if n < 0 then 0 else n
  {
    if n <= 0 then 0
    else Inside(log, n - 1, cutoff, visible) +
         if InWindow(log, n, cutoff, visible) then 1 else 0
  }

  /** Creation times do not decrease with the number. */
  ghost predicate InOrder(log: Log) {
    forall m, n :: m <= n && Get(log, m).Some? && Get(log, n).Some? ==>
      Get(log, m).value.createdAt <= Get(log, n).value.createdAt
  }

  predicate Old(log: Log, n: int, cutoff: Time) {
    Get(log, n).Some? && Get(log, n).value.createdAt < cutoff
  }

  lemma {:induction false} InsideIsEmpty(log: Log, n: int, cutoff: Time, visible: Visible)
    ensures Inside(log, n, cutoff, visible) == 0 <==> forall m :: 1 <= m <= n ==> !InWindow(log, m, cutoff, visible)
    decreases if n < 0 then 0 else n
  {
    if n > 0 {
      InsideIsEmpty(log, n - 1, cutoff, visible);
    }
  }

  /** The walk stops below `h`: at the cap, at the end, or at a record older than the window. */
  lemma {:induction false} CountStops(log: Log, n: nat, left: nat, cutoff: Time, visible: Visible) returns (h: nat)
    ensures n - left <= h <= n && forall m :: h < m <= n ==> !Old(log, m, cutoff)
    ensures h > n - left && h > 0 ==> Old(log, h, cutoff)
    ensures
      var (count, saturated) := Count(log, n, left, cutoff, visible);
      && (saturated <==> h == n - left && h > 0)
      && count == Inside(log, n, cutoff, visible) - Inside(log, h, cutoff, visible)
    decreases left
  {
    if n == 0 || left == 0 || Old(log, n, cutoff) {
      h := n;
    } else {
      h := CountStops(log, n - 1, left - 1, cutoff, visible);
    }
  }

  /** An unsaturated count is the number of visible stored records inside the window; a saturated one
      leaves out exactly those below the cap, and it is saturated if and only if the cap was reached
      with every record scanned still inside the window. */
  ghost predicate CountedExactly(log: Log, cutoff: Time, visible: Visible) {
    var (count, saturated) := Count(log, log.counter, SCAN_CAP, cutoff, visible);
    && (saturated <==>
          log.counter > 2000 && forall m :: log.counter - 2000 < m <= log.counter ==> !Old(log, m, cutoff))
    && (!saturated ==> count == Inside(log, log.counter, cutoff, visible))
    && (saturated ==>
          count + Inside(log, log.counter - 2000, cutoff, visible) == Inside(log, log.counter, cutoff, visible))
  }

  /** Among the last records the cap allows, one is older than the window and numbered above a visible
      one inside it. */
  ghost predicate Hides(log: Log, cutoff: Time, visible: Visible) {
    exists stale, m ::
      && log.counter - 2000 < stale <= log.counter && Old(log, stale, cutoff)
      && 1 <= m < stale && InWindow(log, m, cutoff, visible)
  }

  /** A windowed count is exact if and only if there is no such pair, whatever the gaps and the order
      of creation times. */
  lemma WindowedCountIsExactIff(log: Log, cutoff: Time, visible: Visible)
    ensures CountedExactly(log, cutoff, visible) <==> !Hides(log, cutoff, visible)
  {
    var h := CountStops(log, log.counter, SCAN_CAP, cutoff, visible);
    InsideIsEmpty(log, h, cutoff, visible);
    if h > 0 && h > log.counter - SCAN_CAP {
      if m :| 1 <= m <= h && InWindow(log, m, cutoff, visible) {
        assert Old(log, h, cutoff) && m < h;
        assert Hides(log, cutoff, visible);
      }
    }
  }

  /** So it is exact when creation times do not decrease with the number. */
  lemma WindowedCountIsExact(log: Log, cutoff: Time, visible: Visible)
    requires InOrder(log)
    ensures CountedExactly(log, cutoff, visible)
  {
    WindowedCountIsExactIff(log, cutoff, visible);
  }

  /** Each record is created no earlier than the one before it. */
  ghost predicate ClockForward(changes: seq<Change>, since: Time)
    decreases |changes|
  {
    if changes == [] then true
    else if changes[0].Append? then since <= changes[0].now && ClockForward(changes[1..], changes[0].now)
    else ClockForward(changes[1..], since)
  }

  ghost predicate NoneAfter(log: Log, now: Time) {
    forall n :: Get(log, n).Some? ==> Get(log, n).value.createdAt <= now
  }

  lemma ChangeStaysInOrder(log: Log, c: Change, since: Time)
    requires Ok(log) && InOrder(log) && NoneAfter(log, since)
    requires c.Append? ==> c.id !in log.records && c.id !in log.byNumber.Values && since <= c.now
    ensures InOrder(Changed(log, c)) && NoneAfter(Changed(log, c), if c.Append? then c.now else since)
  {
    var next := Changed(log, c);
    ChangeEvolves(log, c);
    forall n | Get(next, n).Some? && !(c.Append? && n == next.counter) ensures Get(next, n) == Get(log, n) {
      assert log.byNumber[n] in log.byNumber.Values;
    }
  }

  lemma {:induction false} RunStaysInOrder(log: Log, changes: seq<Change>, end: Log, since: Time)
    requires Ok(log) && InOrder(log) && NoneAfter(log, since) && Run(log, changes, end) && ClockForward(changes, since)
    ensures InOrder(end)
    decreases |changes|
  {
    if changes != [] {
      var c := changes[0];
      ChangeEvolves(log, c);
      ChangeStaysInOrder(log, c, since);
      RunStaysInOrder(Changed(log, c), changes[1..], end, if c.Append? then c.now else since);
    }
  }

  /** Over every run of a log, records expiring in any order, in which each record is created no
      earlier than the one before it. */
  lemma CountsOverRunsAreExact(changes: seq<Change>, end: Log, since: Time, cutoff: Time, visible: Visible)
    requires Run(EMPTY, changes, end) && ClockForward(changes, since)
    ensures CountedExactly(end, cutoff, visible)
  {
    RunStaysInOrder(EMPTY, changes, end, since);
    WindowedCountIsExact(end, cutoff, visible);
  }

  /** Two replicas that take numbers in one order and the time in the other break it: the later
      number, created before the window's start, hides the earlier one inside the window. */
  lemma RacingRecordsUndercount(group: GroupId, cutoff: Time, early: Time, late: Time) returns (end: Log)
    requires early < cutoff <= late
    ensures Run(EMPTY, [Append(1, group, late), Append(2, group, early)], end)
    ensures Count(end, end.counter, SCAN_CAP, cutoff, None) == (0, false) && Inside(end, end.counter, cutoff, None) == 1
    ensures !CountedExactly(end, cutoff, None)
  {
    var first := Appended(EMPTY, 1, group, late);
    end := Appended(first, 2, group, early);
    var changes := [Append(1, group, late), Append(2, group, early)];
    assert changes[1..] == [Append(2, group, early)] && changes[1..][1..] == [];
    assert first.byNumber == map[1 := 1] && 2 !in first.byNumber.Values;
    assert Run(first, changes[1..], end);
    assert Inside(end, 1, cutoff, None) == 1;
  }

  lemma CountStep(log: Log, n: int, left: nat, cutoff: Time, visible: Visible)
    requires n > 0 && left > 0
    ensures
      var (here, full) := Count(log, n, left, cutoff, visible);
      var (below, belowFull) := Count(log, n - 1, left - 1, cutoff, visible);
      if Old(log, n, cutoff) then here == 0 && !full
      else here == below + (if Listed(log, n, visible) then 1 else 0) && full == belowFull
  {
  }

  // ---- The service -------------------------------------------------------------------------

  class Journal {
    var counter: nat
    var byNumber: map<int, RecordId>
    var records: map<RecordId, Record>

    ghost function State(): Log
      reads this
    {
      Log(counter, byNumber, records)
    }

    constructor ()
      ensures State() == EMPTY
    {
      counter, byNumber, records := 0, map[], map[];
    }

    function GetViaBucket(n: int): (r: Option<Record>)
      reads this
      ensures r == Get(State(), n)
    {
      if n !in byNumber then None
      else if byNumber[n] !in records then None
      else Some(records[byNumber[n]])
    }

    method RecordEntry(id: RecordId, group: GroupId, now: Time) returns (r: Record)
      modifies this
      ensures State() == Appended(old(State()), id, group, now)
      ensures r == Record(id, old(counter) + 1, group, now)
    {
      counter := counter + 1;
      r := Record(id, counter, group, now);
      records := records[id := r];
      byNumber := byNumber[counter := id];
    }

    method List(before: Option<nat>, limit: int, visible: Visible) returns (out: seq<Record>)
      ensures out == Page(State(), before, limit, visible)
    {
      var starting := match before
        case Some(b) => if b == 0 then 0 else b - 1
        case None => counter;
      out := [];
      if starting == 0 {
        return;
      }
      var most := Clamp(limit);
      var n := starting;
      while |out| < most && n > 0
        invariant 0 <= n <= starting && |out| <= most
        invariant out + Walk(State(), n, most - |out|, visible) == Walk(State(), starting, most, visible)
        decreases n
      {
        var record := GetViaBucket(n);
        if record.Some? && (visible.None? || record.value.group in visible.value) {
          assert out + ([record.value] + Walk(State(), n - 1, most - |out| - 1, visible))
              == (out + [record.value]) + Walk(State(), n - 1, most - |out| - 1, visible);
          out := out + [record.value];
        }
        n := n - 1;
      }
    }

    method CountUnmatchedSince(cutoff: Time, visible: Visible) returns (count: nat, saturated: bool)
      ensures (count, saturated) == Count(State(), counter, SCAN_CAP, cutoff, visible)
    {
      count, saturated := CountUpTo(SCAN_CAP, cutoff, visible);
    }

    method CountUpTo(cap: nat, cutoff: Time, visible: Visible) returns (count: nat, saturated: bool)
      ensures (count, saturated) == Count(State(), counter, cap, cutoff, visible)
    {
      count := 0;
      var scanned, n := 0, counter;
      while n > 0 && scanned < cap
        invariant 0 <= n <= counter && 0 <= scanned <= cap
        invariant
          var (all, full) := Count(State(), counter, cap, cutoff, visible);
          var (rest, restFull) := Count(State(), n, cap - scanned, cutoff, visible);
          all == count + rest && full == restFull
        decreases n
      {
        CountStep(State(), n, cap - scanned, cutoff, visible);
        scanned := scanned + 1;
        var record := GetViaBucket(n);
        if record.Some? {
          if record.value.createdAt < cutoff {
            return count, false;
          }
          if visible.None? || record.value.group in visible.value {
            count := count + 1;
          }
        }
        n := n - 1;
      }
      saturated := n > 0;
    }
  }

  /** The cursor the endpoints hand back, from the raw page. */
  method ListWithCursor(log: Journal, before: Option<nat>, limit: int, visible: Visible)
    returns (entries: seq<Record>, nextBefore: Option<nat>)
    requires Ok(log.State())
    ensures entries == Page(log.State(), before, limit, visible)
    ensures nextBefore == NextBefore(entries)
    ensures nextBefore.Some? ==> 1 < nextBefore.value <= Start(log.State(), before)
    ensures nextBefore.None? ==>
      forall m :: 1 <= m <= Start(log.State(), before) && Listed(log.State(), m, visible) ==>
        Get(log.State(), m).value in entries
  {
    WalkIsExact(log.State(), Start(log.State(), before), Clamp(limit), visible);
    entries := log.List(before, limit, visible);
    nextBefore := None;
    if entries != [] {
      var last := entries[|entries| - 1];
      assert last in entries;
      if last.number > 1 {
        nextBefore := Some(last.number);
      }
    }
  }
}
