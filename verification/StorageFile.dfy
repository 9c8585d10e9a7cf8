/**
 * Durable JSON files: back up, write a temporary file, rename it into place; recover from backups.
 *
 * A write is a list of file operations; a crash executes a prefix of it.  Copying and writing a file
 * are two operations each, so that a crash can leave half a file behind; a rename is one.
 * A backup is named by its time stamp, which is also its modification time.
 */
module StorageFile {
  import opened Options
  import opened Sets

  /** What reading a file gives: a parsed value, or text that is empty or does not parse. */
  datatype Content<+V> = Json(value: V) | Garbage

  datatype Disk<+V> = Disk(main: Option<Content<V>>, tmp: Option<Content<V>>, backups: map<int, Content<V>>)

  datatype Op<+V> =
    | PutBackup(stamp: int, content: Content<V>)
    | DeleteBackup(stamp: int)
    | PutTmp(content: Content<V>)
    | RenameTmp

  function Do<V>(d: Disk<V>, op: Op<V>): Disk<V> {
    match op
    case PutBackup(stamp, c) => d.(backups := d.backups[stamp := c])
    case DeleteBackup(stamp) => d.(backups := d.backups - {stamp})
    case PutTmp(c) => d.(tmp := Some(c))
    case RenameTmp => d.(main := d.tmp, tmp := None)
  }

  function Exec<V>(d: Disk<V>, ops: seq<Op<V>>): Disk<V>
    decreases |ops|
  {
    if ops == [] then d else Exec(Do(d, ops[0]), ops[1..])
  }

  lemma ExecOne<V>(d: Disk<V>, op: Op<V>, rest: seq<Op<V>>)
    ensures Exec(d, [op] + rest) == Exec(Do(d, op), rest)
  {
    assert ([op] + rest)[1..] == rest;
  }

  lemma {:induction false} ExecSplit<V>(d: Disk<V>, a: seq<Op<V>>, b: seq<Op<V>>)
    ensures Exec(d, a + b) == Exec(Exec(d, a), b)
    decreases |a|
  {
    if a == [] {
      assert a + b == b;
    } else {
      ExecSplit(Do(d, a[0]), a[1..], b);
      assert (a + b)[1..] == a[1..] + b;
    }
  }

  // ---------------------------------------------------------------- listing backups, newest first

  predicate IsMax(s: set<int>, m: int) { m in s && forall x :: x in s ==> x <= m }

  lemma {:induction false} SomeMax(s: set<int>)
    requires s != {}
    ensures exists m :: IsMax(s, m)
    decreases s
  {
    HasMember(s);
    var x :| x in s;
    var rest := s - {x};
    assert forall y :: y in s ==> y == x || y in rest;
    if rest == {} {
      assert IsMax(s, x);
    } else {
      SomeMax(rest);
      var m :| IsMax(rest, m);
      assert IsMax(s, if m < x then x else m);
    }
  }

  function MaxOf(s: set<int>): (m: int)
    requires s != {}
    ensures IsMax(s, m)
  {
    SomeMax(s);
    var m :| IsMax(s, m);
    m
  }

  /** `listBackupFiles`: sorted by modification time, newest first. */
  function NewestFirst(s: set<int>): seq<int>
    decreases s
  {
    if s == {} then [] else [MaxOf(s)] + NewestFirst(s - {MaxOf(s)})
  }

  lemma {:induction false} NewestFirstLists(s: set<int>)
    ensures |NewestFirst(s)| == |s|
    ensures forall x :: x in NewestFirst(s) <==> x in s
    decreases s
  {
    if s != {} {
      var m := MaxOf(s);
      NewestFirstLists(s - {m});
      forall x ensures x in NewestFirst(s) <==> x in s {
        assert x in s <==> x == m || x in s - {m};
      }
    }
  }

  lemma {:induction false} NewestFirstSorts(s: set<int>)
    ensures forall i, j :: 0 <= i < j < |NewestFirst(s)| ==> NewestFirst(s)[i] > NewestFirst(s)[j]
    decreases s
  {
    if s != {} {
      var m := MaxOf(s);
      var rest := NewestFirst(s - {m});
      NewestFirstSorts(s - {m});
      NewestFirstLists(s - {m});
      forall j | 0 <= j < |rest| ensures m > rest[j] { assert rest[j] in rest; }
    }
  }

  // ---------------------------------------------------------------- writing

  function Deletions<V>(stamps: seq<int>): seq<Op<V>>
    decreases |stamps|
  {
    if stamps == [] then [] else [DeleteBackup(stamps[0])] + Deletions(stamps[1..])
  }

  function Drop<T>(s: seq<T>, n: nat): seq<T> { if |s| <= n then [] else s[n..] }

  /** `pruneBackups`: everything past the newest `max`. */
  function PruneOps<V>(stamps: set<int>, max: nat): seq<Op<V>> { Deletions(Drop(NewestFirst(stamps), max)) }

  function BackupOps<V>(d: Disk<V>, stamp: int, max: nat): seq<Op<V>> {
    if d.main.None? then []
    else [PutBackup(stamp, Garbage)] + ([PutBackup(stamp, d.main.value)] + PruneOps(d.backups.Keys + {stamp}, max))
  }

  function SwapIn<V>(v: V): seq<Op<V>> { [PutTmp(Garbage)] + ([PutTmp(Json(v))] + ([RenameTmp] + [])) }

  function WriteOps<V>(d: Disk<V>, v: V, stamp: int, max: nat): seq<Op<V>> {
    BackupOps(d, stamp, max) + SwapIn(v)
  }

  // ---------------------------------------------------------------- reading

  datatype Read<+V> = Read(data: Option<V>, recoveredFrom: Option<int>)

  function FirstReadable<V>(backups: map<int, Content<V>>, stamps: seq<int>): Read<V>
    decreases |stamps|
  {
    if stamps == [] then Read(None, None)
    else if stamps[0] in backups && backups[stamps[0]].Json? then Read(Some(backups[stamps[0]].value), Some(stamps[0]))
    else FirstReadable(backups, stamps[1..])
  }

  /** `readJsonWithRecovery` without its restore step. */
  function Recover<V>(d: Disk<V>): Read<V> {
    if d.main.Some? && d.main.value.Json? then Read(Some(d.main.value.value), None)
    else FirstReadable(d.backups, NewestFirst(d.backups.Keys))
  }

  /** The restore step: what was recovered is written back without a backup. */
  ghost function Restored<V>(d: Disk<V>): Disk<V> {
    var r := Recover(d);
    if r.recoveredFrom.Some? && r.data.Some? then Exec(d, SwapIn(r.data.value)) else d
  }

  // ---------------------------------------------------------------- crashes

  lemma {:induction false} BackupsOnlyTouchBackups<V>(d: Disk<V>, ops: seq<Op<V>>)
    requires forall i :: 0 <= i < |ops| ==> ops[i].PutBackup? || ops[i].DeleteBackup?
    ensures Exec(d, ops).main == d.main && Exec(d, ops).tmp == d.tmp
    decreases |ops|
  {
    if ops != [] { BackupsOnlyTouchBackups(Do(d, ops[0]), ops[1..]); }
  }

  lemma {:induction false} DeletionsAreDeletions<V>(stamps: seq<int>)
    ensures forall i :: 0 <= i < |Deletions<V>(stamps)| ==> Deletions<V>(stamps)[i].DeleteBackup?
    decreases |stamps|
  {
    if stamps != [] { DeletionsAreDeletions<V>(stamps[1..]); }
  }

  lemma BackupOpsTouchBackups<V>(d: Disk<V>, stamp: int, max: nat)
    ensures var ops := BackupOps(d, stamp, max);
            forall i :: 0 <= i < |ops| ==> ops[i].PutBackup? || ops[i].DeleteBackup?
  {
    DeletionsAreDeletions<V>(Drop(NewestFirst(d.backups.Keys + {stamp}), max));
  }

  lemma SwapInDone<V>(d: Disk<V>, v: V)
    ensures Exec(d, SwapIn(v)) == d.(main := Some(Json(v)), tmp := None)
  {
    ExecOne(d, PutTmp(Garbage), [PutTmp(Json(v))] + ([RenameTmp] + []));
    ExecOne(d.(tmp := Some(Garbage)), PutTmp(Json(v)), [RenameTmp] + []);
    ExecOne(d.(tmp := Some(Json(v))), RenameTmp, []);
  }

  lemma SwapInCut<V>(d: Disk<V>, v: V, n: nat)
    requires n < |SwapIn(v)|
    ensures Exec(d, SwapIn(v)[..n]).main == d.main
    ensures Exec(d, SwapIn(v)[..n]).backups == d.backups
  {
    var ops := SwapIn(v);
    if n == 0 {
      assert ops[..n] == [];
    } else if n == 1 {
      assert ops[..n] == [PutTmp(Garbage)] + [];
      ExecOne(d, PutTmp(Garbage), []);
    } else {
      assert ops[..n] == [PutTmp(Garbage)] + ([PutTmp(Json(v))] + []);
      ExecOne(d, PutTmp(Garbage), [PutTmp(Json(v))] + []);
      ExecOne(d.(tmp := Some(Garbage)), PutTmp(Json(v)), []);
    }
  }

  lemma WriteDone<V>(d: Disk<V>, v: V, stamp: int, max: nat)
    ensures var d' := Exec(d, WriteOps(d, v, stamp, max));
            d'.main == Some(Json(v)) && d'.backups == Exec(d, BackupOps(d, stamp, max)).backups
  {
    ExecSplit(d, BackupOps(d, stamp, max), SwapIn(v));
    SwapInDone(Exec(d, BackupOps(d, stamp, max)), v);
  }

  /** The main file is the old one until the very last operation of a write. */
  lemma MainIsOldUntilRename<V>(d: Disk<V>, v: V, stamp: int, max: nat, n: nat)
    requires n < |WriteOps(d, v, stamp, max)|
    ensures Exec(d, WriteOps(d, v, stamp, max)[..n]).main == d.main
    ensures d.main.None? || |WriteOps(d, v, stamp, max)| - 3 <= n ==>
              Exec(d, WriteOps(d, v, stamp, max)[..n]).backups == Exec(d, BackupOps(d, stamp, max)).backups
  {
    var a, b := BackupOps(d, stamp, max), SwapIn(v);
    BackupOpsTouchBackups(d, stamp, max);
    if n < |a| {
      assert (a + b)[..n] == a[..n];
      BackupsOnlyTouchBackups(d, a[..n]);
    } else {
      assert (a + b)[..n] == a + b[..n - |a|];
      ExecSplit(d, a, b[..n - |a|]);
      BackupsOnlyTouchBackups(d, a);
      SwapInCut(Exec(d, a), v, n - |a|);
    }
  }

  datatype Write<+V> = Write(value: V, stamp: int)

  /** The disk after a crash at operation `n` of a sequence of writes (no crash when `n` is large). */
  ghost function CrashedDisk<V>(d: Disk<V>, writes: seq<Write<V>>, max: nat, n: nat): Disk<V>
    decreases |writes|
  {
    if writes == [] then d
    else
      var ops := WriteOps(d, writes[0].value, writes[0].stamp, max);
      if n < |ops| then Exec(d, ops[..n]) else CrashedDisk(Exec(d, ops), writes[1..], max, n - |ops|)
  }

  ghost function Completed<V>(d: Disk<V>, writes: seq<Write<V>>, max: nat, n: nat): (k: nat)
    ensures k <= |writes|
    decreases |writes|
  {
    if writes == [] then 0
    else
      var ops := WriteOps(d, writes[0].value, writes[0].stamp, max);
      if n < |ops| then 0 else 1 + Completed(Exec(d, ops), writes[1..], max, n - |ops|)
  }

  lemma {:induction false} CutWriteRecovers<V>(d: Disk<V>, w: Write<V>, max: nat, n: nat)
    requires n < |WriteOps(d, w.value, w.stamp, max)|
    ensures d.main != Some(Garbage) ==> Recover(Exec(d, WriteOps(d, w.value, w.stamp, max)[..n])).data == Recover(d).data
  {
    MainIsOldUntilRename(d, w.value, w.stamp, max, n);
    if d.main.None? { NothingToBackUp(d, w.stamp, max); }
  }

  lemma {:induction false} DoneWriteRecovers<V>(d: Disk<V>, w: Write<V>, max: nat)
    ensures var d' := Exec(d, WriteOps(d, w.value, w.stamp, max));
      d'.main != Some(Garbage) && Recover(d').data == Some(w.value)
  {
    WriteDone(d, w.value, w.stamp, max);
  }

  lemma {:induction false} NothingToBackUp<V>(d: Disk<V>, stamp: int, max: nat)
    requires d.main.None?
    ensures Exec(d, BackupOps(d, stamp, max)) == d
  {
  }

  /**
   * Crash anywhere in any sequence of writes: recovery returns the value of the last write whose rename happened. When
   * there is none, it returns what it would have returned before the first write, unless that write found an unreadable
   * main file (see UnfinishedWriteOverCorruptMain).
   */
  lemma {:induction false} RecoveryAfterCrash<V>(d: Disk<V>, writes: seq<Write<V>>, max: nat, n: nat)
    ensures var k, r := Completed(d, writes, max, n), Recover(CrashedDisk(d, writes, max, n)).data;
      && (k > 0 ==> r == Some(writes[k - 1].value))
      && (k == 0 && d.main != Some(Garbage) ==> r == Recover(d).data)
    decreases |writes|
  {
    if writes != [] {
      var w := writes[0];
      var ops := WriteOps(d, w.value, w.stamp, max);
      if n < |ops| {
        CutWriteRecovers(d, w, max, n);
      } else {
        DoneWriteRecovers(d, w, max);
        RecoveryAfterCrash(Exec(d, ops), writes[1..], max, n - |ops|);
      }
    }
  }

  // ---------------------------------------------------------------- the backups as a list, oldest first

  datatype Backup<+V> = Backup(stamp: int, content: Content<V>)

  ghost predicate Ascending<V>(list: seq<Backup<V>>) {
    forall i, j :: 0 <= i < j < |list| ==> list[i].stamp < list[j].stamp
  }

  function FromList<V>(list: seq<Backup<V>>): map<int, Content<V>> {
    if list == [] then map[]
    else
      var n := |list| - 1;
      FromList(list[..n])[list[n].stamp := list[n].content]
  }

  lemma {:induction false} OlderThan<V>(list: seq<Backup<V>>, bound: int, x: int)
    requires forall i :: 0 <= i < |list| ==> list[i].stamp < bound
    requires x in FromList(list)
    ensures x < bound
    decreases |list|
  {
    var n := |list| - 1;
    if x != list[n].stamp { OlderThan(list[..n], bound, x); }
  }

  function LastN<T>(s: seq<T>, n: nat): seq<T> { if |s| <= n then s else s[|s| - n..] }

  lemma NewestIsListedFirst(before: set<int>, newest: int)
    requires forall x :: x in before ==> x < newest
    ensures NewestFirst(before + {newest}) == [newest] + NewestFirst(before)
  {
    var keys := before + {newest};
    assert IsMax(keys, newest) && IsMax(keys, MaxOf(keys));
    assert keys - {newest} == before;
  }

  lemma ListingStep<V>(list: seq<Backup<V>>)
    requires Ascending(list) && list != []
    ensures var n := |list| - 1;
            && list[n].stamp !in FromList(list[..n])
            && NewestFirst(FromList(list).Keys) == [list[n].stamp] + NewestFirst(FromList(list[..n]).Keys)
  {
    var n := |list| - 1;
    var before := FromList(list[..n]).Keys;
    assert FromList(list).Keys == before + {list[n].stamp};
    forall x | x in before ensures x < list[n].stamp { OlderThan(list[..n], list[n].stamp, x); }
    NewestIsListedFirst(before, list[n].stamp);
  }

  lemma {:induction false} DeletionsRemove<V>(d: Disk<V>, stamps: seq<int>)
    ensures Exec(d, Deletions(stamps)).main == d.main
    ensures Exec(d, Deletions(stamps)).backups == d.backups - (set x | x in stamps)
    decreases |stamps|
  {
    if stamps != [] {
      ExecOne(d, DeleteBackup(stamps[0]), Deletions(stamps[1..]));
      DeletionsRemove(Do(d, DeleteBackup(stamps[0])), stamps[1..]);
      assert (set x | x in stamps) == {stamps[0]} + (set x | x in stamps[1..]);
    }
  }

  ghost function GoneSet(all: seq<int>, max: nat): set<int> { set x | x in Drop(all, max) }

  lemma GoneFromRest(m: int, rest: seq<int>, max: nat)
    requires max > 0
    ensures GoneSet([m] + rest, max) == GoneSet(rest, max - 1)
  {
    assert Drop([m] + rest, max) == Drop(rest, max - 1);
  }

  lemma LastNKeepsLast<T>(s: seq<T>, n: nat)
    requires s != [] && n > 0
    ensures var kept := LastN(s, n);
            kept != [] && kept[..|kept| - 1] == LastN(s[..|s| - 1], n - 1) && kept[|kept| - 1] == s[|s| - 1]
  {
  }

  lemma NotGone<V>(list: seq<Backup<V>>, max: nat, x: int)
    requires x !in FromList(list)
    ensures x !in GoneSet(NewestFirst(FromList(list).Keys), max)
  {
    NewestFirstLists(FromList(list).Keys);
    var all := NewestFirst(FromList(list).Keys);
    assert x in Drop(all, max) ==> x in all;
  }

  lemma RemoveAll<V>(m: map<int, V>, gone: set<int>)
    requires forall x :: x in m ==> x in gone
    ensures m - gone == map[]
  {
    var left := m - gone;
    assert forall x :: x !in left;
  }

  lemma RemoveOthers<V>(m: map<int, V>, k: int, v: V, gone: set<int>)
    requires k !in gone
    ensures m[k := v] - gone == (m - gone)[k := v]
  {
  }

  lemma EverythingGone<V>(m: map<int, Content<V>>)
    ensures m - GoneSet(NewestFirst(m.Keys), 0) == map[]
  {
    var all := NewestFirst(m.Keys);
    NewestFirstLists(m.Keys);
    assert Drop(all, 0) == all;
    forall x ensures x in GoneSet(all, 0) <==> x in m.Keys {
      assert x in m.Keys <==> x in all;
      assert x in GoneSet(all, 0) <==> x in Drop(all, 0);
    }
    RemoveAll(m, GoneSet(all, 0));
  }

  lemma PruneStep<V>(list: seq<Backup<V>>, max: nat)
    requires Ascending(list) && list != [] && max > 0
    requires var before := FromList(list[..|list| - 1]);
             before - GoneSet(NewestFirst(before.Keys), max - 1) == FromList(LastN(list[..|list| - 1], max - 1))
    ensures FromList(list) - GoneSet(NewestFirst(FromList(list).Keys), max) == FromList(LastN(list, max))
  {
    var n := |list| - 1;
    var init, stamp := list[..n], list[n].stamp;
    ListingStep(list);
    var rest := NewestFirst(FromList(init).Keys);
    GoneFromRest(stamp, rest, max);
    NotGone(init, max - 1, stamp);
    RemoveOthers(FromList(init), stamp, list[n].content, GoneSet(rest, max - 1));
    LastNKeepsLast(list, max);
  }

  /** Dropping everything past the newest `max` of the listing leaves the last `max` of the list. */
  lemma {:induction false} PruneList<V>(list: seq<Backup<V>>, max: nat)
    requires Ascending(list)
    ensures FromList(list) - GoneSet(NewestFirst(FromList(list).Keys), max) == FromList(LastN(list, max))
    decreases |list|
  {
    if max == 0 {
      EverythingGone(FromList(list));
    } else if list != [] {
      PruneList(list[..|list| - 1], max - 1);
      PruneStep(list, max);
    }
  }

  lemma BackupOpsDone<V>(d: Disk<V>, stamp: int, max: nat)
    requires d.main.Some?
    ensures Exec(d, BackupOps(d, stamp, max))
         == Exec(d.(backups := d.backups[stamp := d.main.value]), PruneOps(d.backups.Keys + {stamp}, max))
  {
    var prune := PruneOps<V>(d.backups.Keys + {stamp}, max);
    ExecOne(d, PutBackup(stamp, Garbage), [PutBackup(stamp, d.main.value)] + prune);
    ExecOne(Do(d, PutBackup(stamp, Garbage)), PutBackup(stamp, d.main.value), prune);
    assert d.backups[stamp := Garbage][stamp := d.main.value] == d.backups[stamp := d.main.value];
  }

  /** The backup part of a write appends the replaced content and keeps the newest `max`. */
  lemma BackupOpsAppend<V>(d: Disk<V>, list: seq<Backup<V>>, stamp: int, max: nat)
    requires d.main.Some? && d.backups == FromList(list) && Ascending(list + [Backup(stamp, d.main.value)])
    ensures Exec(d, BackupOps(d, stamp, max)).backups == FromList(LastN(list + [Backup(stamp, d.main.value)], max))
  {
    var list' := list + [Backup(stamp, d.main.value)];
    assert list'[..|list|] == list;
    var copied := d.(backups := d.backups[stamp := d.main.value]);
    BackupOpsDone(d, stamp, max);
    assert copied.backups == FromList(list');
    assert copied.backups.Keys == d.backups.Keys + {stamp};
    DeletionsRemove(copied, Drop(NewestFirst(copied.backups.Keys), max));
    PruneList(list', max);
    assert GoneSet(NewestFirst(copied.backups.Keys), max) == set x | x in Drop(NewestFirst(copied.backups.Keys), max);
  }

  // ---------------------------------------------------------------- what the backups hold after many writes

  ghost function AfterWrites<V>(d: Disk<V>, writes: seq<Write<V>>, max: nat): Disk<V>
    decreases |writes|
  {
    if writes == [] then d
    else
      var n := |writes| - 1;
      var before := AfterWrites(d, writes[..n], max);
      Exec(before, WriteOps(before, writes[n].value, writes[n].stamp, max))
  }

  /** What stands in the main file after these writes. */
  function MainAfter<V>(main: Option<Content<V>>, writes: seq<Write<V>>): Option<Content<V>> {
    if writes == [] then main else Some(Json(writes[|writes| - 1].value))
  }

  /** What each write replaced, readable or not, under the stamp of the write that replaced it. */
  function Replaced<V>(main: Option<Content<V>>, writes: seq<Write<V>>): seq<Backup<V>> {
    if writes == [] then []
    else
      var n := |writes| - 1;
      var was := MainAfter(main, writes[..n]);
      Replaced(main, writes[..n]) + (if was.Some? then [Backup(writes[n].stamp, was.value)] else [])
  }

  ghost predicate IncreasingStamps<V>(writes: seq<Write<V>>) {
    forall i, j :: 0 <= i < j < |writes| ==> writes[i].stamp < writes[j].stamp
  }

  /** The backups there are, oldest first, are older than the writes to come. */
  ghost predicate OlderThanAll<V>(list: seq<Backup<V>>, writes: seq<Write<V>>) {
    && Ascending(list) && IncreasingStamps(writes)
    && (writes != [] ==> forall i :: 0 <= i < |list| ==> list[i].stamp < writes[0].stamp)
  }

  lemma {:induction false} AllAscend<V>(list: seq<Backup<V>>, main: Option<Content<V>>, writes: seq<Write<V>>)
    requires OlderThanAll(list, writes)
    ensures Ascending(list + Replaced(main, writes))
    ensures writes != [] ==>
      forall i :: 0 <= i < |list + Replaced(main, writes)| ==> (list + Replaced(main, writes))[i].stamp <= writes[|writes| - 1].stamp
    decreases |writes|
  {
    if writes != [] {
      var n := |writes| - 1;
      AllAscend(list, main, writes[..n]);
      var before := list + Replaced(main, writes[..n]);
      var added := (list + Replaced(main, writes))[|before|..];
      assert list + Replaced(main, writes) == before + added;
      if n > 0 { assert writes[n - 1].stamp < writes[n].stamp; }
    } else {
      assert list + Replaced(main, writes) == list;
    }
  }

  lemma LastNAscends<V>(list: seq<Backup<V>>, last: Backup<V>, max: nat)
    requires Ascending(list + [last])
    ensures Ascending(LastN(list, max) + [last])
  {
    var a, b := list + [last], LastN(list, max) + [last];
    assert b == a[|a| - |b|..];
  }

  lemma LastNAppend<T>(s: seq<T>, x: T, n: nat)
    ensures LastN(LastN(s, n) + [x], n) == LastN(s + [x], n)
  {
  }

  /** The backups there were and those that the writes made, of which the newest `max` are kept once one has been made. */
  function Kept<V>(list: seq<Backup<V>>, made: seq<Backup<V>>, max: nat): seq<Backup<V>> {
    if made == [] then list else LastN(list + made, max)
  }

  /** One more write, over a main file that is there. */
  lemma OneMoreKept<V>(d: Disk<V>, list: seq<Backup<V>>, made: seq<Backup<V>>, stamp: int, max: nat)
    requires d.main.Some? && d.backups == FromList(Kept(list, made, max))
    requires Ascending(list + (made + [Backup(stamp, d.main.value)]))
    ensures Exec(d, BackupOps(d, stamp, max)).backups == FromList(Kept(list, made + [Backup(stamp, d.main.value)], max))
  {
    var added := Backup(stamp, d.main.value);
    assert list + (made + [added]) == (list + made) + [added];
    if made == [] {
      assert list + made == list;
      BackupOpsAppend(d, list, stamp, max);
    } else {
      LastNAscends(list + made, added, max);
      BackupOpsAppend(d, LastN(list + made, max), stamp, max);
      LastNAppend(list + made, added, max);
    }
  }

  lemma OneMoreWrite<V>(d: Disk<V>, list: seq<Backup<V>>, made: seq<Backup<V>>, w: Write<V>, max: nat)
    requires d.backups == FromList(Kept(list, made, max))
    requires d.main.Some? ==> Ascending(list + (made + [Backup(w.stamp, d.main.value)]))
    ensures var d' := Exec(d, WriteOps(d, w.value, w.stamp, max));
      && d'.main == Some(Json(w.value))
      && d'.backups == FromList(Kept(list, made + (if d.main.Some? then [Backup(w.stamp, d.main.value)] else []), max))
  {
    WriteDone(d, w.value, w.stamp, max);
    if d.main.Some? {
      OneMoreKept(d, list, made, w.stamp, max);
    } else {
      assert Exec(d, []) == d && made + [] == made;
    }
  }

  /**
   * After any writes with increasing stamps, on any disk whose backups are older, the backups are exactly the newest `max` of
   * those that were there and of what the writes replaced; nothing is removed before the first of these is made.
   */
  lemma {:induction false} BackupsAreTheLastReplaced<V>(d: Disk<V>, list: seq<Backup<V>>, writes: seq<Write<V>>, max: nat)
    requires d.backups == FromList(list) && OlderThanAll(list, writes)
    ensures AfterWrites(d, writes, max).main == MainAfter(d.main, writes)
    ensures AfterWrites(d, writes, max).backups == FromList(Kept(list, Replaced(d.main, writes), max))
    decreases |writes|
  {
    if writes != [] {
      var n := |writes| - 1;
      BackupsAreTheLastReplaced(d, list, writes[..n], max);
      AllAscend(list, d.main, writes);
      OneMoreWrite(AfterWrites(d, writes[..n], max), list, Replaced(d.main, writes[..n]), writes[n], max);
    }
  }

  lemma NothingToPrune<V>(s: set<int>, max: nat)
    requires |s| <= max
    ensures PruneOps<V>(s, max) == []
  {
    NewestFirstLists(s);
  }

  /**
   * Stamps must differ: a second write in the same millisecond takes the first one's backup file, so the
   * value saved there is lost and no new backup appears.
   */
  lemma SameStampLosesABackup<V>(d: Disk<V>, v: V, stamp: int, max: nat)
    requires d.main.Some? && stamp in d.backups && |d.backups| <= max
    ensures Exec(d, WriteOps(d, v, stamp, max)).backups == d.backups[stamp := d.main.value]
  {
    WriteDone(d, v, stamp, max);
    var keys := d.backups.Keys + {stamp};
    assert keys == d.backups.Keys && |keys| == |d.backups|;
    NothingToPrune<V>(keys, max);
    BackupOpsDone(d, stamp, max);
  }

  // ---------------------------------------------------------------- recovery

  lemma {:induction false} FirstReadableIsNewest<V>(backups: map<int, Content<V>>, stamps: seq<int>)
    requires forall x :: x in stamps ==> x in backups
    requires forall i, j :: 0 <= i < j < |stamps| ==> stamps[i] > stamps[j]
    ensures var r := FirstReadable(backups, stamps);
            && (r.recoveredFrom.None? <==> r.data.None?)
            && (r.data.None? ==> forall x :: x in stamps ==> backups[x].Garbage?)
            && (r.data.Some? ==>
                 && r.recoveredFrom.value in stamps && r.recoveredFrom.value in backups
                 && backups[r.recoveredFrom.value] == Json(r.data.value)
                 && forall x :: x in stamps && backups[x].Json? ==> x <= r.recoveredFrom.value)
    decreases |stamps|
  {
    if stamps != [] {
      FirstReadableIsNewest(backups, stamps[1..]);
      assert forall x :: x in stamps <==> x == stamps[0] || x in stamps[1..];
    }
  }

  /**
   * When the main file is gone or unreadable, the newest readable backup is returned, half-written ones
   * are passed over, and nothing is returned only if no backup is readable.
   */
  lemma CorruptMainRecoversNewestReadable<V>(d: Disk<V>)
    requires d.main.None? || d.main.value.Garbage?
    ensures var r := Recover(d);
            && (r.data.None? <==> forall x :: x in d.backups ==> d.backups[x].Garbage?)
            && (r.data.Some? ==>
                 && r.recoveredFrom.Some? && r.recoveredFrom.value in d.backups
                 && d.backups[r.recoveredFrom.value] == Json(r.data.value)
                 && forall x :: x in d.backups && d.backups[x].Json? ==> x <= r.recoveredFrom.value)
  {
    NewestFirstSorts(d.backups.Keys);
    NewestFirstLists(d.backups.Keys);
    FirstReadableIsNewest(d.backups, NewestFirst(d.backups.Keys));
    assert forall x :: x in d.backups <==> x in NewestFirst(d.backups.Keys);
  }

  /** A recovered value is put back: the next read finds it in the main file, and no backup was used up. */
  lemma RestoreMakesRecoveryPermanent<V>(d: Disk<V>)
    ensures Recover(Restored(d)).data == Recover(d).data
    ensures Recover(d).data.Some? ==> Recover(Restored(d)).recoveredFrom.None?
    ensures Restored(d).backups == d.backups
  {
    if d.main.None? || d.main.value.Garbage? { CorruptMainRecoversNewestReadable(d); }
    var r := Recover(d);
    if r.recoveredFrom.Some? && r.data.Some? { SwapInDone(d, r.data.value); }
  }

  /** Backups newer than the newest readable one. */
  function TrailingUnreadable<V>(list: seq<Backup<V>>): nat {
    if list == [] || list[|list| - 1].content.Json? then 0 else 1 + TrailingUnreadable(list[..|list| - 1])
  }

  function NewestReadable<V>(list: seq<Backup<V>>): Option<V> {
    if list == [] then None
    else
      var c := list[|list| - 1].content;
      if c.Json? then Some(c.value) else NewestReadable(list[..|list| - 1])
  }

  /** A backup newer than everything listed does not change what the listed ones give. */
  lemma {:induction false} IgnoresOthers<V>(a: map<int, Content<V>>, b: map<int, Content<V>>, stamps: seq<int>)
    requires forall x :: x in stamps ==> (x in a <==> x in b) && (x in a ==> a[x] == b[x])
    ensures FirstReadable(a, stamps) == FirstReadable(b, stamps)
    decreases |stamps|
  {
    if stamps != [] {
      var x := stamps[0];
      assert x in stamps && forall y :: y in stamps[1..] ==> y in stamps;
      IgnoresOthers(a, b, stamps[1..]);
      if x in a && a[x].Json? { assert FirstReadable(b, stamps) == Read(Some(b[x].value), Some(x)); }
    }
  }

  lemma {:induction false} RecoverFromList<V>(list: seq<Backup<V>>)
    requires Ascending(list)
    ensures FirstReadable(FromList(list), NewestFirst(FromList(list).Keys)).data == NewestReadable(list)
    decreases |list|
  {
    if list != [] {
      var n := |list| - 1;
      ListingStep(list);
      RecoverFromList(list[..n]);
      var before := FromList(list[..n]);
      var rest := NewestFirst(before.Keys);
      NewestFirstLists(before.Keys);
      assert ([list[n].stamp] + rest)[1..] == rest;
      IgnoresOthers(FromList(list), before, rest);
    }
  }

  /** Losing the main file after some writes, on any such disk, costs exactly the last write. */
  lemma LosingMainCostsOneWrite<V>(d: Disk<V>, list: seq<Backup<V>>, writes: seq<Write<V>>, max: nat, lost: Option<Content<V>>)
    requires d.backups == FromList(list) && OlderThanAll(list, writes) && writes != [] && max > 0
    requires var was := MainAfter(d.main, writes[..|writes| - 1]); was.Some? && was.value.Json?
    requires lost.None? || lost.value.Garbage?
    ensures Recover(AfterWrites(d, writes, max).(main := lost)).data == Some(MainAfter(d.main, writes[..|writes| - 1]).value.value)
  {
    BackupsAreTheLastReplaced(d, list, writes, max);
    var all := list + Replaced(d.main, writes);
    var kept := Kept(list, Replaced(d.main, writes), max);
    AllAscend(list, d.main, writes);
    assert kept == all[|all| - |kept|..];
    RecoverFromList(kept);
  }

  // ---------------------------------------------------------------- writing over an unreadable main file

  /** The listing is the list from its end. */
  lemma {:induction false} ListingIs<V>(list: seq<Backup<V>>, i: nat)
    requires Ascending(list) && i < |list|
    ensures |NewestFirst(FromList(list).Keys)| == |list|
    ensures NewestFirst(FromList(list).Keys)[i] == list[|list| - 1 - i].stamp
    decreases |list|
  {
    var n := |list| - 1;
    ListingStep(list);
    if i > 0 {
      ListingIs(list[..n], i - 1);
    } else if n > 0 {
      ListingIs(list[..n], 0);
    }
  }

  lemma {:induction false} FromListAt<V>(list: seq<Backup<V>>, x: int)
    requires Ascending(list)
    ensures x in FromList(list) <==> exists i :: 0 <= i < |list| && list[i].stamp == x
    ensures forall i :: 0 <= i < |list| && list[i].stamp == x ==> x in FromList(list) && FromList(list)[x] == list[i].content
    decreases |list|
  {
    if list != [] {
      var n := |list| - 1;
      FromListAt(list[..n], x);
      assert forall i :: 0 <= i < n ==> list[..n][i] == list[i];
    }
  }

  lemma {:induction false} TrailingAreUnreadable<V>(list: seq<Backup<V>>)
    ensures TrailingUnreadable(list) <= |list|
    ensures forall i :: |list| - TrailingUnreadable(list) <= i < |list| ==> list[i].content.Garbage?
    ensures NewestReadable(list).Some? ==>
      TrailingUnreadable(list) < |list| && list[|list| - 1 - TrailingUnreadable(list)].content == Json(NewestReadable(list).value)
    decreases |list|
  {
    if list != [] && list[|list| - 1].content.Garbage? {
      var init := list[..|list| - 1];
      TrailingAreUnreadable(init);
      assert forall i :: 0 <= i < |init| ==> init[i] == list[i];
    }
  }

  /** What recovery finds in the backups, with the stamp it is found under. */
  lemma {:induction false} RecoveredIs<V>(d: Disk<V>, list: seq<Backup<V>>)
    requires d.main == Some(Garbage) && d.backups == FromList(list) && Ascending(list) && NewestReadable(list).Some?
    ensures TrailingUnreadable(list) < |list|
    ensures Recover(d) == Read(NewestReadable(list), Some(list[|list| - 1 - TrailingUnreadable(list)].stamp))
  {
    TrailingAreUnreadable(list);
    CorruptMainRecoversNewestReadable(d);
    var k := |list| - 1 - TrailingUnreadable(list);
    FromListAt(list, list[k].stamp);
    assert list[k].stamp in d.backups && d.backups[list[k].stamp].Json?;
    var x := Recover(d).recoveredFrom.value;
    FromListAt(list, x);
    var i :| 0 <= i < |list| && list[i].stamp == x;
    assert i <= k;
  }

  /** The main file is as it was, and so is every backup, but for ones that are gone and unreadable ones that are new. */
  ghost predicate NothingReadableAdded<V>(d: Disk<V>, d': Disk<V>) {
    && d'.main == d.main
    && (forall x :: x in d'.backups && x in d.backups ==> d'.backups[x] == d.backups[x])
    && (forall x :: x in d'.backups && x !in d.backups ==> d'.backups[x].Garbage?)
  }

  /** Recovery is what it was as long as the backup it used is there, and no other readable one has been added. */
  lemma {:induction false} SameRecoveryIff<V>(d: Disk<V>, d': Disk<V>)
    requires d.main == Some(Garbage) && NothingReadableAdded(d, d') && Recover(d).data.Some? && Recover(d).recoveredFrom.Some?
    ensures Recover(d') == Recover(d) <==> Recover(d).recoveredFrom.value in d'.backups
  {
    CorruptMainRecoversNewestReadable(d);
    CorruptMainRecoversNewestReadable(d');
    var r, r', x := Recover(d), Recover(d'), Recover(d).recoveredFrom.value;
    if x in d'.backups {
      assert d'.backups[x].Json?;
      assert r'.data.Some? && r'.recoveredFrom.value == x;
    }
  }

  lemma {:induction false} DeletionsPrefix<V>(stamps: seq<int>, j: nat)
    requires j <= |stamps|
    ensures |Deletions<V>(stamps)| == |stamps| && Deletions<V>(stamps)[..j] == Deletions<V>(stamps[..j])
    decreases |stamps|
  {
    if stamps != [] {
      if j > 0 {
        DeletionsPrefix<V>(stamps[1..], j - 1);
        assert stamps[..j][1..] == stamps[1..][..j - 1];
      } else {
        DeletionsPrefix<V>(stamps[1..], 0);
      }
    }
  }

  /** How many old backups a write cut off after `n` operations has deleted, if `surplus` are to go. */
  function DeletedBy(n: nat, surplus: nat): nat { if n < 2 then 0 else if n - 2 < surplus then n - 2 else surplus }

  function Surplus(backups: nat, max: nat): nat { if backups < max then 0 else backups - max }

  /**
   * Of `backups` backups, the one at place `p` of the listing is not among those a write cut off after `n` operations has
   * deleted: it is among the newest `max`, or the deletions have not come to it.
   */
  predicate StaysListed(p: nat, n: nat, backups: nat, max: nat) { p < max || DeletedBy(n, Surplus(backups, max)) <= p - max }

  /** The first two operations of a write over an unreadable file make its copy, half and whole alike. */
  lemma {:induction false} TwoCopies<V>(d: Disk<V>, stamp: int, max: nat, n: nat)
    requires d.main == Some(Garbage) && 1 <= n <= |BackupOps(d, stamp, max)|
    ensures var gone := Drop(NewestFirst(d.backups.Keys + {stamp}), max); var j := DeletedBy(n, |gone|);
      j <= |gone| && Exec(d, BackupOps(d, stamp, max)[..n]).main == d.main
      && Exec(d, BackupOps(d, stamp, max)[..n]).backups == d.backups[stamp := Garbage] - set x | x in gone[..j]
  {
    var gone := Drop(NewestFirst(d.backups.Keys + {stamp}), max);
    var put: Op<V> := PutBackup(stamp, Garbage);
    var ops, rest := BackupOps(d, stamp, max), Deletions<V>(gone);
    DeletionsPrefix<V>(gone, |gone|);
    var once := Do(d, put);
    assert Do(once, put) == once;
    if n == 1 {
      assert ops[..1] == [put] + [];
      ExecOne(d, put, []);
      assert gone[..0] == [];
    } else {
      var j := n - 2;
      DeletionsPrefix<V>(gone, j);
      assert ops[..n] == [put] + ([put] + rest[..j]);
      ExecOne(d, put, [put] + rest[..j]);
      ExecOne(once, put, rest[..j]);
      DeletionsRemove(once, gone[..j]);
    }
  }

  lemma {:induction false} CutWrite<V>(d: Disk<V>, v: V, stamp: int, max: nat, n: nat)
    requires d.main == Some(Garbage) && 1 <= n < |WriteOps(d, v, stamp, max)|
    ensures var gone := Drop(NewestFirst(d.backups.Keys + {stamp}), max); var j := DeletedBy(n, |gone|);
      var d' := Exec(d, WriteOps(d, v, stamp, max)[..n]);
      j <= |gone| && d'.main == d.main && d'.backups == d.backups[stamp := Garbage] - set x | x in gone[..j]
  {
    var a, b := BackupOps(d, stamp, max), SwapIn(v);
    var gone := Drop(NewestFirst(d.backups.Keys + {stamp}), max);
    DeletionsPrefix<V>(gone, |gone|);
    if n <= |a| {
      assert (a + b)[..n] == a[..n];
      TwoCopies(d, stamp, max, n);
    } else {
      MainIsOldUntilRename(d, v, stamp, max, n);
      TwoCopies(d, stamp, max, |a|);
      assert a[..|a|] == a;
    }
  }

  /** The copy of the unreadable file stands in front of the list, so everything moves one place back in the listing. */
  lemma {:induction false} PlaceAfterCopy<V>(list: seq<Backup<V>>, stamp: int, i: nat)
    requires Ascending(list + [Backup(stamp, Garbage)]) && i < |list|
    ensures var all := NewestFirst(FromList(list).Keys + {stamp});
      |all| == |list| + 1 && all[i + 1] == list[|list| - 1 - i].stamp
    ensures FromList(list + [Backup(stamp, Garbage)]) == FromList(list)[stamp := Garbage]
  {
    var list' := list + [Backup(stamp, Garbage)];
    assert list'[..|list|] == list;
    ListingIs(list', i + 1);
    assert FromList(list').Keys == FromList(list).Keys + {stamp};
  }

  lemma {:induction false} ListingIsDistinct(s: set<int>, i: nat, j: nat)
    requires i < |NewestFirst(s)| && j < |NewestFirst(s)| && NewestFirst(s)[i] == NewestFirst(s)[j]
    ensures i == j
  {
    NewestFirstSorts(s);
  }

  lemma {:induction false} GoneIff(s: set<int>, max: nat, j: nat, p: nat)
    requires p < |NewestFirst(s)| && j <= |Drop(NewestFirst(s), max)|
    ensures NewestFirst(s)[p] in Drop(NewestFirst(s), max)[..j] <==> max <= p < max + j
  {
    var all, gone := NewestFirst(s), Drop(NewestFirst(s), max);
    if max <= p < max + j { assert gone[..j][p - max] == all[p]; }
    if all[p] in gone[..j] {
      var i :| 0 <= i < j && gone[..j][i] == all[p];
      ListingIsDistinct(s, max + i, p);
    }
  }

  /**
   * A write does not look before it backs up: an unreadable main file is copied into the backups, where it counts towards
   * `max`, and the backups past `max` are deleted, newest first. Wherever the write is cut off before its rename, the value
   * that was recoverable before is still recovered, from the same backup, exactly when fewer than max - 1 unreadable
   * backups are newer than it or the deletions have not come to it yet.
   */
  lemma {:induction false} UnfinishedWriteOverCorruptMain<V>(d: Disk<V>, list: seq<Backup<V>>, v: V, stamp: int, max: nat, n: nat)
    requires d.main == Some(Garbage)
    requires d.backups == FromList(list) && Ascending(list + [Backup(stamp, Garbage)])
    requires NewestReadable(list).Some? && n < |WriteOps(d, v, stamp, max)|
    ensures Recover(d).data == NewestReadable(list)
    ensures Recover(Exec(d, WriteOps(d, v, stamp, max)[..n])) == Recover(d)
      <==> StaysListed(TrailingUnreadable(list) + 1, n, |list| + 1, max)
  {
    AscendingFront(list, Backup(stamp, Garbage));
    RecoveredIs(d, list);
    CutOverCorruptMain(d, list, v, stamp, max, n, TrailingUnreadable(list));
  }

  lemma AscendingFront<V>(list: seq<Backup<V>>, last: Backup<V>)
    requires Ascending(list + [last])
    ensures Ascending(list) && forall i :: 0 <= i < |list| ==> list[i].stamp < last.stamp
  {
    var list' := list + [last];
    assert forall i :: 0 <= i < |list| ==> list'[i] == list[i];
    assert list'[|list|] == last;
  }

  /** Whether the backup at place `i` from the end of the list is still there after the cut. */
  lemma {:induction false} StillThereIff<V>(d: Disk<V>, list: seq<Backup<V>>, v: V, stamp: int, max: nat, n: nat, i: nat)
    requires d.main == Some(Garbage) && d.backups == FromList(list)
    requires Ascending(list) && Ascending(list + [Backup(stamp, Garbage)])
    requires 1 <= n < |WriteOps(d, v, stamp, max)| && i < |list|
    ensures list[|list| - 1 - i].stamp in Exec(d, WriteOps(d, v, stamp, max)[..n]).backups
      <==> StaysListed(i + 1, n, |list| + 1, max)
  {
    var keys := d.backups.Keys + {stamp};
    var gone := Drop(NewestFirst(keys), max);
    var j, x := DeletedBy(n, |gone|), list[|list| - 1 - i].stamp;
    CutWrite(d, v, stamp, max, n);
    PlaceAfterCopy(list, stamp, i);
    assert |gone| == Surplus(|list| + 1, max);
    GoneIff(keys, max, j, i + 1);
    FromListAt(list, x);
    assert x in d.backups[stamp := Garbage];
  }

  lemma {:induction false} CutOverCorruptMain<V>(d: Disk<V>, list: seq<Backup<V>>, v: V, stamp: int, max: nat, n: nat, i: nat)
    requires d.main == Some(Garbage) && d.backups == FromList(list)
    requires Ascending(list) && Ascending(list + [Backup(stamp, Garbage)])
    requires n < |WriteOps(d, v, stamp, max)| && i < |list|
    requires Recover(d).data.Some? && Recover(d).recoveredFrom == Some(list[|list| - 1 - i].stamp)
    ensures Recover(Exec(d, WriteOps(d, v, stamp, max)[..n])) == Recover(d) <==> StaysListed(i + 1, n, |list| + 1, max)
  {
    if n == 0 {
      NotBegun(d, WriteOps(d, v, stamp, max));
    } else {
      StillThereIff(d, list, v, stamp, max, n, i);
      CutAddsNothingReadable(d, list, v, stamp, max, n);
      SameRecoveryIff(d, Exec(d, WriteOps(d, v, stamp, max)[..n]));
    }
  }

  lemma NotBegun<V>(d: Disk<V>, ops: seq<Op<V>>)
    ensures Exec(d, ops[..0]) == d
  {
    assert ops[..0] == [];
  }

  lemma {:induction false} CutAddsNothingReadable<V>(d: Disk<V>, list: seq<Backup<V>>, v: V, stamp: int, max: nat, n: nat)
    requires d.main == Some(Garbage) && d.backups == FromList(list)
    requires Ascending(list) && Ascending(list + [Backup(stamp, Garbage)]) && 1 <= n < |WriteOps(d, v, stamp, max)|
    ensures NothingReadableAdded(d, Exec(d, WriteOps(d, v, stamp, max)[..n]))
  {
    CutWrite(d, v, stamp, max, n);
    AscendingFront(list, Backup(stamp, Garbage));
    FromListAt(list, stamp);
  }

  // ---------------------------------------------------------------- the file operations, carried out

  class JsonFile<V> {
    var main: Option<Content<V>>
    var tmp: Option<Content<V>>
    var backups: map<int, Content<V>>

    function OnDisk(): Disk<V>
      reads this
    {
      Disk(main, tmp, backups)
    }

    constructor ()
      ensures OnDisk() == Disk(None, None, map[])
    {
      main, tmp, backups := None, None, map[];
    }

    method PruneBackups(max: nat)
      modifies this`backups
      ensures OnDisk() == Exec(old(OnDisk()), PruneOps(old(backups).Keys, max))
    {
      var files := NewestFirst(backups.Keys);
      var i := max;
      while i < |files|
        invariant Exec(OnDisk(), Deletions(Drop(files, i))) == Exec(old(OnDisk()), Deletions(Drop(files, max)))
      {
        assert Drop(files, i)[1..] == Drop(files, i + 1);
        ExecOne(OnDisk(), DeleteBackup(files[i]), Deletions(Drop(files, i + 1)));
        backups := backups - {files[i]};
        i := i + 1;
      }
    }

    method BackupFileSync(stamp: int, max: nat)
      modifies this`backups
      ensures OnDisk() == Exec(old(OnDisk()), BackupOps(old(OnDisk()), stamp, max))
    {
      if main.None? { return; }
      ghost var prune := PruneOps<V>(backups.Keys + {stamp}, max);
      ExecOne(OnDisk(), PutBackup(stamp, Garbage), [PutBackup(stamp, main.value)] + prune);
      backups := backups[stamp := Garbage];
      ExecOne(OnDisk(), PutBackup(stamp, main.value), prune);
      backups := backups[stamp := main.value];
      assert backups.Keys == old(backups).Keys + {stamp};
      PruneBackups(max);
    }

    method AtomicWriteJsonSync(v: V, stamp: int, skipBackup: bool, max: nat)
      modifies this
      ensures OnDisk() == if skipBackup then Exec(old(OnDisk()), SwapIn(v))
                                        else Exec(old(OnDisk()), WriteOps(old(OnDisk()), v, stamp, max))
    {
      if !skipBackup {
        ExecSplit(OnDisk(), BackupOps(OnDisk(), stamp, max), SwapIn(v));
        BackupFileSync(stamp, max);
      }
      SwapInDone(OnDisk(), v);
      tmp := Some(Garbage);
      tmp := Some(Json(v));
      main, tmp := tmp, None;
    }

    method ReadJsonWithRecovery(restore: bool) returns (r: Read<V>)
      modifies this
      ensures r == Recover(old(OnDisk()))
      ensures OnDisk() == if restore then Restored(old(OnDisk())) else old(OnDisk())
    {
      if main.Some? && main.value.Json? { return Read(Some(main.value.value), None); }
      var files := NewestFirst(backups.Keys);
      var i := 0;
      while i < |files|
        invariant 0 <= i <= |files|
        invariant FirstReadable(backups, files) == FirstReadable(backups, files[i..])
      {
        var c := if files[i] in backups then backups[files[i]] else Garbage;
        if c.Json? {
          if restore { AtomicWriteJsonSync(c.value, 0, true, 0); }
          return Read(Some(c.value), Some(files[i]));
        }
        assert files[i..][1..] == files[i + 1..];
        i := i + 1;
      }
      return Read(None, None);
    }
  }
}
