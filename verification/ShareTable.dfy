/**
 * The stored shares: what share.set takes and refuses, and what it, share.remove and the removal of an SMB user leave
 * in the table, which is read in the order of its datasets.
 */
module ShareTable {
  import opened Text

  /** `level`: read or write, or whatever a restored database holds. */
  datatype Access = Access(user: string, level: string)

  /** `access`: nobody's list yet, or who may open the share over SMB. */
  datatype Share = Share(
    dataset: string, smb: bool, timeMachine: bool, nfs: bool, clients: seq<string>, access: Option<seq<Access>>,
    updatedAt: int)

  // ---- shapes ----

  predicate IsLower(c: char) { 'a' <= c <= 'z' }
  predicate IsLetter(c: char) { 'a' <= c <= 'z' || 'A' <= c <= 'Z' }
  predicate IsNameChar(c: char) { IsLetter(c) || IsDigit(c) || c == '_' || c == '.' || c == ':' || c == '-' }
  predicate IsUserChar(c: char) { IsLower(c) || IsDigit(c) || c == '.' || c == '_' || c == '-' }
  predicate IsClientChar(c: char) {
    IsLetter(c) || IsDigit(c) || c == '.' || c == '*' || c == ':' || c == '/' || c == '-'
  }

  predicate AllOf(s: string, ok: char -> bool) { s == "" || (ok(s[0]) && AllOf(s[1..], ok)) }

  predicate IsComponent(s: string) { 1 <= |s| <= 255 && IsLetter(s[0]) && AllOf(s[1..], IsNameChar) }
  predicate IsChild(s: string) { 1 <= |s| <= 255 && (IsLetter(s[0]) || IsDigit(s[0])) && AllOf(s[1..], IsNameChar) }

  predicate IsDataset(s: string) {
    var parts := Split(s, '/');
    |s| <= 255 && '@' !in s && IsComponent(parts[0]) && forall p :: p in parts[1..] ==> IsChild(p)
  }

  predicate IsClient(s: string) {
    1 <= |s| <= 80 && (IsLetter(s[0]) || IsDigit(s[0]) || s[0] == '*') && AllOf(s[1..], IsClientChar)
  }

  predicate IsUser(s: string) { 1 <= |s| <= 32 && IsLower(s[0]) && AllOf(s[1..], IsUserChar) && s != "root" }

  /** An SMB list: known shapes, nobody twice. */
  predicate IsAccess(list: seq<Access>) {
    && |list| <= 200
    && (forall a :: a in list ==> IsUser(a.user) && (a.level == "read" || a.level == "write"))
    && forall i, j :: 0 <= i < j < |list| ==> list[i].user != list[j].user
  }

  /** The dataset's last component. */
  function NameOf(dataset: string): string {
    var parts := Split(dataset, '/');
    parts[|parts| - 1]
  }

  function LowerChar(c: char): char { if 'A' <= c <= 'Z' then c + ' ' else c }

  function Lower(s: string): (r: string)
    ensures |r| == |s|
  {
    if s == "" then "" else [LowerChar(s[0])] + Lower(s[1..])
  }

  /** How SMB tells shares apart. */
  function SmbName(dataset: string): string { Lower(NameOf(dataset)) }

  predicate Reserved(name: string) { name == "global" || name == "homes" || name == "printers" }

  /** The name of a share is what follows the last slash. */
  lemma NameIsLast(parent: string, name: string)
    requires '/' !in name
    ensures NameOf(parent + "/" + name) == name && NameOf(name) == name
  {
    SplitAppend(parent, name, '/');
    SplitNone(name, '/');
    assert parent + ['/'] + name == parent + "/" + name;
  }

  predicate IsAsciiLetter(c: char) { 'A' <= c <= 'Z' || 'a' <= c <= 'z' }

  /** The same letter, case aside. */
  predicate SameLetter(a: char, b: char) {
    a == b || (IsAsciiLetter(a) && IsAsciiLetter(b) && (a as int - b as int == 32 || b as int - a as int == 32))
  }

  /** Two shares are one to SMB exactly when their last components agree letter by letter, case aside. */
  lemma SameNameExactly(a: string, b: string)
    ensures
      SmbName(a) == SmbName(b) <==>
      |NameOf(a)| == |NameOf(b)| && forall i :: 0 <= i < |NameOf(a)| ==> SameLetter(NameOf(a)[i], NameOf(b)[i])
  {
    LowerAt(NameOf(a));
    LowerAt(NameOf(b));
    forall i | 0 <= i < |NameOf(a)| && i < |NameOf(b)|
      ensures SmbName(a)[i] == SmbName(b)[i] <==> SameLetter(NameOf(a)[i], NameOf(b)[i])
    {
      SameLowerChar(NameOf(a)[i], NameOf(b)[i]);
    }
  }

  lemma {:induction false} LowerAt(s: string)
    ensures forall i :: 0 <= i < |s| ==> Lower(s)[i] == LowerChar(s[i])
  {
    if s != "" {
      LowerAt(s[1..]);
      assert forall i :: 0 < i < |s| ==> s[i] == s[1..][i - 1] && Lower(s)[i] == Lower(s[1..])[i - 1];
    }
  }

  lemma SameLowerChar(a: char, b: char)
    ensures LowerChar(a) == LowerChar(b) <==> SameLetter(a, b)
  {}

  // ---- the table ----

  predicate Less(a: string, b: string) {
    if b == "" then false else a == "" || a[0] < b[0] || (a[0] == b[0] && Less(a[1..], b[1..]))
  }

  predicate Sorted(rows: seq<Share>) {
    forall i, j :: 0 <= i < j < |rows| ==> Less(rows[i].dataset, rows[j].dataset)
  }

  function Find(rows: seq<Share>, dataset: string): Option<Share> {
    if rows == [] then None else if rows[0].dataset == dataset then Some(rows[0]) else Find(rows[1..], dataset)
  }

  function Upsert(rows: seq<Share>, row: Share): seq<Share> {
    if rows == [] then [row]
    else if rows[0].dataset == row.dataset then [row] + rows[1..]
    else if Less(row.dataset, rows[0].dataset) then [row] + rows
    else [rows[0]] + Upsert(rows[1..], row)
  }

  function Removed(rows: seq<Share>, dataset: string): (r: seq<Share>)
    ensures |r| <= |rows|
    ensures forall x :: x in r <==> x in rows && x.dataset != dataset
  {
    if rows == [] then []
    else (if rows[0].dataset == dataset then [] else [rows[0]]) + Removed(rows[1..], dataset)
  }

  lemma {:induction false} LessTotal(a: string, b: string)
    ensures !Less(a, a)
    ensures a != b ==> Less(a, b) || Less(b, a)
    decreases |a|
  {
    if a != "" {
      LessTotal(a[1..], if b == "" then "" else b[1..]);
      if b != "" && a[0] == b[0] {
        assert a == [a[0]] + a[1..] && b == [b[0]] + b[1..];
      }
    }
  }

  lemma {:induction false} LessTrans(a: string, b: string, c: string)
    requires Less(a, b) && Less(b, c)
    ensures Less(a, c)
    decreases |a|
  {
    if a != "" && a[0] == b[0] == c[0] {
      LessTrans(a[1..], b[1..], c[1..]);
    }
  }

  lemma {:induction false} UpsertIs(rows: seq<Share>, row: Share)
    requires Sorted(rows)
    ensures Sorted(Upsert(rows, row))
    ensures forall x :: x in Upsert(rows, row) <==> x == row || (x in rows && x.dataset != row.dataset)
    decreases |rows|
  {
    if rows != [] {
      var first, rest := rows[0], rows[1..];
      assert rows == [first] + rest;
      assert forall x :: x in rest ==> Less(first.dataset, x.dataset);
      LessTotal(first.dataset, row.dataset);
      if first.dataset == row.dataset {
        forall x | x in rest ensures x.dataset != row.dataset {
          LessTotal(x.dataset, x.dataset);
        }
      } else if Less(row.dataset, first.dataset) {
        forall x | x in rest ensures x.dataset != row.dataset && Less(row.dataset, x.dataset) {
          LessTrans(row.dataset, first.dataset, x.dataset);
          LessTotal(x.dataset, x.dataset);
        }
      } else {
        UpsertIs(rest, row);
      }
    }
  }

  lemma {:induction false} RemovedSorted(rows: seq<Share>, dataset: string)
    requires Sorted(rows)
    ensures Sorted(Removed(rows, dataset))
    decreases |rows|
  {
    if rows != [] {
      RemovedSorted(rows[1..], dataset);
      assert forall x :: x in rows[1..] ==> Less(rows[0].dataset, x.dataset);
    }
  }

  lemma {:induction false} FindIs(rows: seq<Share>, x: Share)
    requires Sorted(rows) && x in rows
    ensures Find(rows, x.dataset) == Some(x)
    decreases |rows|
  {
    LessTotal(x.dataset, x.dataset);
    if rows[0] != x {
      assert rows == [rows[0]] + rows[1..];
      FindIs(rows[1..], x);
    }
  }

  lemma {:induction false} FindFinds(rows: seq<Share>, dataset: string)
    ensures
      Find(rows, dataset).Some? ==> Find(rows, dataset).value in rows && Find(rows, dataset).value.dataset == dataset
    ensures Find(rows, dataset).None? ==> forall x :: x in rows ==> x.dataset != dataset
    decreases |rows|
  {
    if rows != [] {
      FindFinds(rows[1..], dataset);
    }
  }

  // ---- share.set ----

  /** What a caller may give; what it leaves out stays as it was. */
  datatype Wish = Wish(
    dataset: string, smb: Option<bool>, timeMachine: Option<bool>, nfs: Option<bool>, clients: Option<seq<string>>,
    access: Option<seq<Access>>)

  datatype Error =
    NotADataset | NoSuchDataset | NotMounted | NotAClient | NoClients | NotAList | ReservedName | TwinName | NotShared

  /** The datasets there are, each with its mountpoint if it has one. */
  type Mounts = map<string, Option<string>>

  function Or<T>(given: Option<T>, before: T): T { if given.Some? then given.value else before }

  /** The row as it would be stored. */
  function Wanted(rows: seq<Share>, a: Wish, now: int): Share {
    var before := Find(rows, a.dataset);
    var was := if before.Some? then before.value else Share(a.dataset, false, false, false, [], None, now);
    var smb := Or(a.smb, was.smb);
    Share(
      a.dataset, smb, Or(a.timeMachine, was.timeMachine) && smb, Or(a.nfs, was.nfs), Or(a.clients, was.clients),
      if a.access.Some? then a.access else was.access, now)
  }

  predicate TwinOf(x: Share, dataset: string) {
    x.smb && x.dataset != dataset && SmbName(x.dataset) == SmbName(dataset)
  }

  predicate HasTwin(rows: seq<Share>, dataset: string) {
    rows != [] && (TwinOf(rows[0], dataset) || HasTwin(rows[1..], dataset))
  }

  /** Why a call is refused, the first reason first. */
  function ErrorOf(rows: seq<Share>, mounts: Mounts, a: Wish): Option<Error> {
    var row := Wanted(rows, a, 0);
    if !IsDataset(a.dataset) then Some(NotADataset)
    else if a.dataset !in mounts then Some(NoSuchDataset)
    else if mounts[a.dataset].None? then Some(NotMounted)
    else if a.clients.Some? && exists c :: c in a.clients.value && !IsClient(c) then Some(NotAClient)
    else if row.nfs && row.clients == [] && (a.nfs.Some? || a.clients.Some?) then Some(NoClients)
    else if a.access.Some? && !IsAccess(a.access.value) then Some(NotAList)
    else if row.smb && Reserved(SmbName(a.dataset)) then Some(ReservedName)
    else if row.smb && HasTwin(rows, a.dataset) then Some(TwinName)
    else None
  }

  function SetTo(rows: seq<Share>, a: Wish, now: int): seq<Share> {
    var row := Wanted(rows, a, now);
    if !row.smb && !row.nfs then Removed(rows, a.dataset) else Upsert(rows, row)
  }

  // ---- the removal of an SMB user ----

  predicate Lists(x: Share, user: string) { x.access.Some? && exists a :: a in x.access.value && a.user == user }

  predicate AnyLists(rows: seq<Share>, user: string) {
    rows != [] && (AnyLists(rows[..|rows| - 1], user) || Lists(rows[|rows| - 1], user))
  }

  function Others(list: seq<Access>, user: string): (r: seq<Access>)
    ensures |r| <= |list|
    ensures forall a :: a in r <==> a in list && a.user != user
  {
    if list == [] then [] else (if list[0].user == user then [] else [list[0]]) + Others(list[1..], user)
  }

  function WithoutUser(x: Share, user: string, now: int): Share {
    if Lists(x, user) then x.(access := Some(Others(x.access.value, user)), updatedAt := now) else x
  }

  function DropUser(rows: seq<Share>, user: string, now: int): (r: seq<Share>)
    ensures |r| == |rows| && forall i :: 0 <= i < |rows| ==> r[i] == WithoutUser(rows[i], user, now)
  {
    seq(|rows|, i requires 0 <= i < |rows| => WithoutUser(rows[i], user, now))
  }

  // ---- what every change keeps ----

  /** No two SMB shares agree in their last component, case aside. */
  ghost predicate NoTwins(rows: seq<Share>) {
    forall x, y :: x in rows && y in rows && x.smb && y.smb && x.dataset != y.dataset ==>
      SmbName(x.dataset) != SmbName(y.dataset)
  }

  predicate Sound(x: Share) {
    && IsDataset(x.dataset)
    && (forall c :: c in x.clients ==> IsClient(c))
    && (x.access.Some? ==> IsAccess(x.access.value))
    && (x.smb ==> !Reserved(SmbName(x.dataset)))
  }

  lemma {:induction false} HasTwinIs(rows: seq<Share>, dataset: string)
    ensures HasTwin(rows, dataset) <==> exists x :: x in rows && TwinOf(x, dataset)
    decreases |rows|
  {
    if rows != [] {
      HasTwinIs(rows[1..], dataset);
      assert forall x :: x in rows <==> x == rows[0] || x in rows[1..];
    }
  }

  /**
   * What share.set leaves: this row as wished, or none when it is shared no way at all, and every other row as it was.
   */
  lemma SetLeaves(rows: seq<Share>, a: Wish, now: int, x: Share)
    requires Sorted(rows)
    ensures Sorted(SetTo(rows, a, now))
    ensures
      var row := Wanted(rows, a, now);
      x in SetTo(rows, a, now) <==>
        if x.dataset == a.dataset then x == row && (row.smb || row.nfs) else x in rows
  {
    UpsertIs(rows, Wanted(rows, a, now));
    RemovedSorted(rows, a.dataset);
  }

  /** Whether this is what a call's optional value comes to: as given, else as before, else as for a new row. */
  predicate Comes<T(==)>(value: T, given: Option<T>, before: Option<T>, otherwise: T) {
    && (given.Some? ==> value == given.value)
    && (given.None? && before.Some? ==> value == before.value)
    && (given.None? && before.None? ==> value == otherwise)
  }

  function Of<T>(before: Option<Share>, field: Share -> T): Option<T> {
    if before.Some? then Some(field(before.value)) else None
  }

  /**
   * What an accepted share.set stores, field by field: what it leaves out stays, and a Time Machine share is an SMB
   * one.
   */
  lemma SetStores(rows: seq<Share>, a: Wish, now: int)
    requires Sorted(rows)
    ensures
      var before, after := Find(rows, a.dataset), Find(SetTo(rows, a, now), a.dataset);
      if after.None? then
        && Comes(false, a.smb, Of(before, (x: Share) => x.smb), false)
        && Comes(false, a.nfs, Of(before, (x: Share) => x.nfs), false)
      else
        var x := after.value;
        && (x.smb || x.nfs) && x.dataset == a.dataset && x.updatedAt == now
        && Comes(x.smb, a.smb, Of(before, (x: Share) => x.smb), false)
        && Comes(x.nfs, a.nfs, Of(before, (x: Share) => x.nfs), false)
        && (if x.smb then Comes(x.timeMachine, a.timeMachine, Of(before, (x: Share) => x.timeMachine), false)
            else !x.timeMachine)
        && Comes(x.clients, a.clients, Of(before, (x: Share) => x.clients), [])
        && (a.access.Some? ==> x.access == a.access)
        && (a.access.None? ==> x.access == if before.Some? then before.value.access else None)
  {
    var row := Wanted(rows, a, now);
    SetLeaves(rows, a, now, row);
    FindFinds(rows, a.dataset);
    FindFinds(SetTo(rows, a, now), a.dataset);
    if row.smb || row.nfs {
      FindIs(SetTo(rows, a, now), row);
    } else {
      FoundNone(rows, a, now);
    }
  }

  lemma FoundNone(rows: seq<Share>, a: Wish, now: int)
    requires Sorted(rows) && !Wanted(rows, a, now).smb && !Wanted(rows, a, now).nfs
    ensures Find(SetTo(rows, a, now), a.dataset).None?
  {
    FindFinds(SetTo(rows, a, now), a.dataset);
    if Find(SetTo(rows, a, now), a.dataset).Some? {
      SetLeaves(rows, a, now, Find(SetTo(rows, a, now), a.dataset).value);
      assert false;
    }
  }

  /** Whether the dataset is to be shared by SMB, or by NFS, after the call. */
  predicate WantsSmb(rows: seq<Share>, a: Wish) {
    a.smb == Some(true) || (a.smb.None? && Find(rows, a.dataset).Some? && Find(rows, a.dataset).value.smb)
  }

  predicate WantsNfs(rows: seq<Share>, a: Wish) {
    a.nfs == Some(true) || (a.nfs.None? && Find(rows, a.dataset).Some? && Find(rows, a.dataset).value.nfs)
  }

  predicate NobodyAllowed(rows: seq<Share>, a: Wish) {
    if a.clients.Some? then a.clients.value == []
    else Find(rows, a.dataset).Some? ==> Find(rows, a.dataset).value.clients == []
  }

  /** Exactly what is accepted. */
  lemma AcceptedExactly(rows: seq<Share>, mounts: Mounts, a: Wish)
    ensures
      ErrorOf(rows, mounts, a).None? <==>
      && IsDataset(a.dataset) && a.dataset in mounts && mounts[a.dataset].Some?
      && (a.clients.Some? ==> forall c :: c in a.clients.value ==> IsClient(c))
      && (WantsNfs(rows, a) && (a.nfs.Some? || a.clients.Some?) ==> !NobodyAllowed(rows, a))
      && (a.access.Some? ==> IsAccess(a.access.value))
      && (WantsSmb(rows, a) ==>
            && SmbName(a.dataset) !in {"global", "homes", "printers"}
            && forall x :: x in rows && x.smb && x.dataset != a.dataset ==> SmbName(x.dataset) != SmbName(a.dataset))
  {
    HasTwinIs(rows, a.dataset);
  }

  lemma WantedSound(rows: seq<Share>, mounts: Mounts, a: Wish, now: int)
    requires ErrorOf(rows, mounts, a).None? && forall x :: x in rows ==> Sound(x)
    ensures Sound(Wanted(rows, a, now))
  {
    FindFinds(rows, a.dataset);
    var row, same := Wanted(rows, a, now), Wanted(rows, a, 0);
    assert row.smb == same.smb && row.clients == same.clients && row.access == same.access;
  }

  /** No call stores a second SMB share under a name: two rows that agree in it afterwards were both there before. */
  lemma SetAddsNoTwin(rows: seq<Share>, mounts: Mounts, a: Wish, now: int, x: Share, y: Share)
    requires Sorted(rows) && ErrorOf(rows, mounts, a).None?
    requires x in SetTo(rows, a, now) && y in SetTo(rows, a, now) && x.smb && TwinOf(y, x.dataset)
    ensures x in rows && y in rows
  {
    SetLeaves(rows, a, now, x);
    SetLeaves(rows, a, now, y);
    if x.dataset == a.dataset {
      NoTwinFor(rows, mounts, a, y);
    } else if y.dataset == a.dataset {
      NoTwinFor(rows, mounts, a, x);
    }
  }

  lemma SetKeepsNames(rows: seq<Share>, mounts: Mounts, a: Wish, now: int)
    requires Sorted(rows) && ErrorOf(rows, mounts, a).None? && NoTwins(rows)
    ensures NoTwins(SetTo(rows, a, now))
  {
    var next := SetTo(rows, a, now);
    forall x, y | x in next && y in next && x.smb && y.smb && x.dataset != y.dataset
      ensures SmbName(x.dataset) != SmbName(y.dataset)
    {
      if TwinOf(y, x.dataset) {
        SetAddsNoTwin(rows, mounts, a, now, x, y);
      }
    }
  }

  lemma NoTwinFor(rows: seq<Share>, mounts: Mounts, a: Wish, x: Share)
    requires ErrorOf(rows, mounts, a).None? && Wanted(rows, a, 0).smb && x in rows
    ensures !TwinOf(x, a.dataset)
  {
    HasTwinIs(rows, a.dataset);
  }

  /** No call stores a row that would be left out of the files. */
  lemma SetKeepsSound(rows: seq<Share>, mounts: Mounts, a: Wish, now: int)
    requires Sorted(rows) && ErrorOf(rows, mounts, a).None? && forall x :: x in rows ==> Sound(x)
    ensures forall x :: x in SetTo(rows, a, now) ==> Sound(x)
  {
    WantedSound(rows, mounts, a, now);
    forall x | x in SetTo(rows, a, now) ensures Sound(x) {
      SetLeaves(rows, a, now, x);
    }
  }

  lemma {:induction false} OthersIs(list: seq<Access>, user: string)
    requires IsAccess(list)
    ensures IsAccess(Others(list, user))
    decreases |list|
  {
    if list != [] {
      OthersIs(list[1..], user);
      assert forall a :: a in list[1..] ==> a.user != list[0].user;
    }
  }

  /** After the removal of a user no share lists the name, and nothing else about any share changed. */
  lemma DropLeaves(rows: seq<Share>, user: string, now: int, i: nat)
    requires i < |rows|
    ensures
      var x, y := rows[i], DropUser(rows, user, now)[i];
      && !Lists(y, user)
      && y == x.(access := y.access, updatedAt := y.updatedAt)
      && (x.access.None? <==> y.access.None?)
      && (x.access.Some? ==> forall a :: a in y.access.value <==> a in x.access.value && a.user != user)
      && (!Lists(x, user) ==> y == x) && (Lists(x, user) ==> y.updatedAt == now)
  {
  }

  lemma DropKeeps(rows: seq<Share>, user: string, now: int)
    requires Sorted(rows)
    ensures Sorted(DropUser(rows, user, now))
    ensures NoTwins(rows) ==> NoTwins(DropUser(rows, user, now))
    ensures (forall x :: x in rows ==> Sound(x)) ==> forall x :: x in DropUser(rows, user, now) ==> Sound(x)
  {
    var next := DropUser(rows, user, now);
    forall x | x in next ensures exists y :: y in rows && x == WithoutUser(y, user, now) {
      var i :| 0 <= i < |next| && next[i] == x;
      assert rows[i] in rows;
    }
    if forall x :: x in rows ==> Sound(x) {
      forall x | x in next ensures Sound(x) {
        var y :| y in rows && x == WithoutUser(y, user, now);
        if Lists(y, user) {
          OthersIs(y.access.value, user);
        }
      }
    }
  }

  lemma RemoveKeeps(rows: seq<Share>, dataset: string)
    requires Sorted(rows)
    ensures Sorted(Removed(rows, dataset))
    ensures NoTwins(rows) ==> NoTwins(Removed(rows, dataset))
    ensures (forall x :: x in rows ==> Sound(x)) ==> forall x :: x in Removed(rows, dataset) ==> Sound(x)
  {
    RemovedSorted(rows, dataset);
  }

  lemma {:induction false} UpsertAt(before: seq<Share>, was: Share, row: Share, after: seq<Share>)
    requires Sorted(before + [was] + after) && row.dataset == was.dataset
    ensures Upsert(before + [was] + after, row) == before + [row] + after
    decreases |before|
  {
    var all := before + [was] + after;
    if before == [] {
      assert all[0] == was && all[1..] == after;
    } else {
      assert all[0] == before[0] && all[|before|] == was;
      assert all[1..] == before[1..] + [was] + after;
      assert Less(before[0].dataset, was.dataset);
      LessTotal(was.dataset, was.dataset);
      if Less(was.dataset, before[0].dataset) {
        LessTrans(was.dataset, before[0].dataset, was.dataset);
        assert false;
      }
      UpsertAt(before[1..], was, row, after);
      assert [before[0]] + (before[1..] + [row] + after) == before + [row] + after;
    }
  }

  // ---- the table as an object ----

  class ShareDb {
    var rows: seq<Share>

    constructor (rows: seq<Share>)
      ensures this.rows == rows
    {
      this.rows := rows;
    }

    method SetShare(row: Share)
      modifies this
      ensures rows == Upsert(old(rows), row)
    {
      rows := Upsert(rows, row);
    }

    method RemoveShare(dataset: string) returns (changed: bool)
      modifies this
      ensures rows == Removed(old(rows), dataset)
      ensures changed <==> exists x :: x in old(rows) && x.dataset == dataset
    {
      changed := Find(rows, dataset).Some?;
      FindFinds(rows, dataset);
      rows := Removed(rows, dataset);
    }

    /** Row after row of the table as it was read, each one that lists the user stored again without it. */
    method DropSmbUserFromShares(user: string, now: int) returns (changed: bool)
      requires Sorted(rows)
      modifies this
      ensures rows == DropUser(old(rows), user, now)
      ensures changed <==> AnyLists(old(rows), user)
    {
      var all := rows;
      changed := false;
      MidwayEnds(all, user, now);
      for i := 0 to |all|
        invariant rows == Midway(all, user, now, i)
        invariant changed <==> AnyLists(all[..i], user)
      {
        var x := all[i];
        MidwayNext(all, user, now, i);
        if Lists(x, user) {
          SetShare(WithoutUser(x, user, now));
          changed := true;
        }
      }
      assert all[..|all|] == all;
    }
  }

  function Midway(all: seq<Share>, user: string, now: int, i: nat): seq<Share>
    requires i <= |all|
  {
    DropUser(all[..i], user, now) + all[i..]
  }

  lemma MidwayEnds(all: seq<Share>, user: string, now: int)
    ensures Midway(all, user, now, 0) == all && Midway(all, user, now, |all|) == DropUser(all, user, now)
  {
    assert all[..|all|] == all;
  }

  lemma MidwayParts(all: seq<Share>, user: string, now: int, i: nat)
    requires i < |all|
    ensures
      var before, after := DropUser(all[..i], user, now), all[i + 1..];
      && Midway(all, user, now, i) == before + [all[i]] + after
      && Midway(all, user, now, i + 1) == before + [WithoutUser(all[i], user, now)] + after
  {
    DropOneMore(all[..i], all[i], user, now);
    assert all[..i + 1] == all[..i] + [all[i]] && all[i..] == [all[i]] + all[i + 1..];
    Associates(DropUser(all[..i], user, now), [all[i]], all[i + 1..]);
  }

  lemma DropOneMore(rows: seq<Share>, x: Share, user: string, now: int)
    ensures DropUser(rows + [x], user, now) == DropUser(rows, user, now) + [WithoutUser(x, user, now)]
  {}

  lemma MidwayNext(all: seq<Share>, user: string, now: int, i: nat)
    requires i < |all| && Sorted(all)
    ensures AnyLists(all[..i + 1], user) <==> AnyLists(all[..i], user) || Lists(all[i], user)
    ensures
      Midway(all, user, now, i + 1)
      == if Lists(all[i], user) then Upsert(Midway(all, user, now, i), WithoutUser(all[i], user, now))
        else Midway(all, user, now, i)
  {
    assert all[..i + 1][..i] == all[..i];
    MidwaySorted(all, user, now, i);
    MidwayParts(all, user, now, i);
    UpsertAt(DropUser(all[..i], user, now), all[i], WithoutUser(all[i], user, now), all[i + 1..]);
  }

  lemma MidwaySorted(all: seq<Share>, user: string, now: int, i: nat)
    requires i <= |all| && Sorted(all)
    ensures Sorted(Midway(all, user, now, i))
  {
    assert forall k :: 0 <= k < |all| ==> Midway(all, user, now, i)[k].dataset == all[k].dataset;
  }
}
