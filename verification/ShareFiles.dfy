/**
 * The shares that are offered, out of any table, and the two files written from them: smb.conf with a section a share,
 * and the NFS exports.
 */
module ShareFiles {
  import opened Text
  import opened ShareTable

  /** A stored share with where it is mounted now. */
  datatype Offer = Offer(share: Share, mountpoint: Option<string>)

  /** `settings`: what the global section says on every box, which is `OwnSettings()`. */
  datatype Config = Config(
    hostname: string, group: string, uid: nat, gid: nat, owner: string, ownerGroup: string, settings: seq<string>)

  // ---- which shares are offered ----

  /** `names`: the SMB names given so far. */
  function ListedFrom(rows: seq<Share>, names: set<string>): seq<Share> {
    if rows == [] then []
    else
      var x := rows[0];
      if !Sound(x) || (x.smb && SmbName(x.dataset) in names) then ListedFrom(rows[1..], names)
      else [x] + ListedFrom(rows[1..], if x.smb then names + {SmbName(x.dataset)} else names)
  }

  function Listed(rows: seq<Share>): seq<Share> { ListedFrom(rows, {}) }

  function MountOf(mounts: Mounts, dataset: string): Option<string> {
    if dataset in mounts then mounts[dataset] else None
  }

  function Mounted(shares: seq<Share>, mounts: Mounts): (r: seq<Offer>)
    ensures |r| == |shares| && forall i :: 0 <= i < |r| ==> r[i] == Offer(shares[i], MountOf(mounts, shares[i].dataset))
  {
    seq(|shares|, i requires 0 <= i < |shares| => Offer(shares[i], MountOf(mounts, shares[i].dataset)))
  }

  /** What is offered are the listed shares, each with the mountpoint its own dataset has. */
  lemma OffersAre(rows: seq<Share>, mounts: Mounts, o: Offer)
    ensures
      o in Mounted(Listed(rows), mounts) <==>
      && o.share in Listed(rows)
      && (o.share.dataset in mounts ==> o.mountpoint == mounts[o.share.dataset])
      && (o.share.dataset !in mounts ==> o.mountpoint == None)
  {
    if o.share in Listed(rows) {
      var i :| 0 <= i < |Listed(rows)| && Listed(rows)[i] == o.share;
      assert Mounted(Listed(rows), mounts)[i].share == o.share;
    }
  }

  /** The filter over the rows, with the set of names it fills. */
  method ListShares(rows: seq<Share>, mounts: Mounts) returns (offers: seq<Offer>)
    ensures offers == Mounted(Listed(rows), mounts)
  {
    var names: set<string> := {};
    var stored: seq<Share> := [];
    var left := rows;
    while left != []
      invariant stored + ListedFrom(left, names) == Listed(rows)
      decreases |left|
    {
      var x := left[0];
      var takes := Sound(x) && !(x.smb && SmbName(x.dataset) in names);
      if takes {
        if x.smb {
          names := names + {SmbName(x.dataset)};
        }
        MoveOver(stored, x, ListedFrom(left[1..], names));
        stored := stored + [x];
      }
      left := left[1..];
    }
    offers := Mounted(stored, mounts);
  }

  lemma MoveOver(stored: seq<Share>, x: Share, rest: seq<Share>)
    ensures stored + ([x] + rest) == (stored + [x]) + rest
  {
  }

  /** An earlier row that is offered under the same SMB name. */
  ghost predicate Preceded(rows: seq<Share>, i: nat)
    requires i < |rows|
  {
    exists j :: 0 <= j < i && Sound(rows[j]) && rows[j].smb && SmbName(rows[j].dataset) == SmbName(rows[i].dataset)
  }

  /** What a row must be to be offered. */
  ghost predicate Chosen(rows: seq<Share>, i: nat)
    requires i < |rows|
  {
    Sound(rows[i]) && (rows[i].smb ==> !Preceded(rows, i))
  }

  ghost function ChosenFrom(rows: seq<Share>, i: nat): seq<Share>
    requires i <= |rows|
    decreases |rows| - i
  {
    if i == |rows| then [] else (if Chosen(rows, i) then [rows[i]] else []) + ChosenFrom(rows, i + 1)
  }

  /** The names given so far are those of the offerable SMB rows. */
  ghost predicate NamesOf(rows: seq<Share>, i: nat, names: set<string>)
    requires i <= |rows|
  {
    forall name :: name in names <==>
      exists j :: 0 <= j < i && Sound(rows[j]) && rows[j].smb && SmbName(rows[j].dataset) == name
  }

  lemma NamesOfNext(rows: seq<Share>, i: nat, names: set<string>)
    requires i < |rows| && NamesOf(rows, i, names)
    ensures Chosen(rows, i) <==> Sound(rows[i]) && !(rows[i].smb && SmbName(rows[i].dataset) in names)
    ensures NamesOf(rows, i + 1, if Chosen(rows, i) && rows[i].smb then names + {SmbName(rows[i].dataset)} else names)
  {
  }

  lemma {:induction false} ListedFromIs(rows: seq<Share>, i: nat, names: set<string>)
    requires i <= |rows| && NamesOf(rows, i, names)
    ensures ListedFrom(rows[i..], names) == ChosenFrom(rows, i)
    decreases |rows| - i
  {
    if i < |rows| {
      NamesOfNext(rows, i, names);
      assert rows[i..][0] == rows[i] && rows[i..][1..] == rows[i + 1..];
      ListedFromIs(rows, i + 1, if Chosen(rows, i) && rows[i].smb then names + {SmbName(rows[i].dataset)} else names);
    }
  }

  /** Out of any table, in its order: the rows share.set would take, of each SMB name the first only. */
  lemma ListedExactly(rows: seq<Share>)
    ensures Listed(rows) == ChosenFrom(rows, 0)
  {
    assert rows[0..] == rows;
    ListedFromIs(rows, 0, {});
  }

  lemma {:induction false} NoneLeftOut(rows: seq<Share>, i: nat)
    requires i <= |rows| && forall j :: i <= j < |rows| ==> Chosen(rows, j)
    ensures ChosenFrom(rows, i) == rows[i..]
    decreases |rows| - i
  {
    if i < |rows| {
      NoneLeftOut(rows, i + 1);
    }
  }

  lemma SortedApart(rows: seq<Share>, j: nat, i: nat)
    requires Sorted(rows) && j < i < |rows|
    ensures rows[j].dataset != rows[i].dataset
  {
    LessTotal(rows[i].dataset, rows[i].dataset);
  }

  /** A table that only share.set wrote is offered whole. */
  lemma OwnTableIsListed(rows: seq<Share>)
    requires Sorted(rows) && NoTwins(rows) && forall x :: x in rows ==> Sound(x)
    ensures Listed(rows) == rows
  {
    forall i | 0 <= i < |rows| ensures Chosen(rows, i) {
      assert rows[i] in rows;
      if rows[i].smb {
        forall j | 0 <= j < i && rows[j].smb ensures SmbName(rows[j].dataset) != SmbName(rows[i].dataset) {
          SortedApart(rows, j, i);
          assert rows[j] in rows;
        }
      }
    }
    ListedExactly(rows);
    NoneLeftOut(rows, 0);
  }

  // ---- distinct names ----

  ghost predicate DistinctNames(shares: seq<Share>) {
    forall i, j :: 0 <= i < j < |shares| && shares[i].smb && shares[j].smb ==>
      SmbName(shares[i].dataset) != SmbName(shares[j].dataset)
  }

  lemma {:induction false} ListedAre(rows: seq<Share>, names: set<string>, x: Share)
    requires x in ListedFrom(rows, names)
    ensures x in rows && Sound(x) && (x.smb ==> SmbName(x.dataset) !in names)
    decreases |rows|
  {
    if rows != [] {
      var first := rows[0];
      if Sound(first) && !(first.smb && SmbName(first.dataset) in names) {
        if x != first {
          ListedAre(rows[1..], if first.smb then names + {SmbName(first.dataset)} else names, x);
        }
      } else {
        ListedAre(rows[1..], names, x);
      }
    }
  }

  /** Of any table, what is listed are rows of it that share.set would take, and SMB shares under distinct names. */
  lemma {:induction false} ListedNames(rows: seq<Share>, names: set<string>)
    ensures DistinctNames(ListedFrom(rows, names))
    ensures
      forall x :: x in ListedFrom(rows, names) ==> x in rows && Sound(x) && (x.smb ==> SmbName(x.dataset) !in names)
    decreases |rows|
  {
    forall x | x in ListedFrom(rows, names) ensures x in rows && Sound(x) && (x.smb ==> SmbName(x.dataset) !in names) {
      ListedAre(rows, names, x);
    }
    if rows != [] {
      var x := rows[0];
      if Sound(x) && !(x.smb && SmbName(x.dataset) in names) {
        var more := if x.smb then names + {SmbName(x.dataset)} else names;
        ListedNames(rows[1..], more);
        FirstApart(x, ListedFrom(rows[1..], more));
      } else {
        ListedNames(rows[1..], names);
      }
    }
  }

  lemma FirstApart(x: Share, rest: seq<Share>)
    requires
      DistinctNames(rest) && (x.smb ==> forall y :: y in rest && y.smb ==> SmbName(y.dataset) != SmbName(x.dataset))
    ensures DistinctNames([x] + rest)
  {
    forall j | 0 <= j < |rest| && x.smb && rest[j].smb ensures SmbName(rest[j].dataset) != SmbName(x.dataset) {
      assert rest[j] in rest;
    }
  }

  // ---- smb.conf ----

  function Origin(): string { "# Written by mk-nasd from its database." }

  function Warning(): string { " Edits here are lost on the next change;" }

  function Written(): string { Origin() + Warning() + " use the drive." }

  function Opening(c: Config): seq<string> { [Written(), "[global]", "   server string = " + c.hostname] }

  function Serving(): seq<string> {
    [ "   workgroup = WORKGROUP",
      "   server role = standalone server",
      "   security = user",
      "   map to guest = never",
      "   passdb backend = tdbsam" ]
  }

  function Logging(): seq<string> {
    [ "   log file = /var/log/samba/log.%m",
      "   max log size = 1000",
      "   logging = file",
      "   server min protocol = SMB2",
      "   smb encrypt = desired" ]
  }

  function Printing(): seq<string> {
    [ "   load printers = no",
      "   printing = bsd",
      "   printcap name = /dev/null",
      "   disable spoolss = yes",
      "   vfs objects = catia fruit streams_xattr" ]
  }

  function ForMacs(): seq<string> {
    [ "   fruit:metadata = stream",
      "   fruit:model = MacSamba",
      "   fruit:nfs_aces = no",
      "   fruit:veto_appledouble = no" ]
  }

  function ForMacsToo(): seq<string> {
    [ "   fruit:wipe_intentionally_left_blank_rfork" + " = yes",
      "   fruit:delete_empty_adfiles = yes",
      "   ea support = yes",
      "" ]
  }

  function OwnSettings(): seq<string> { Serving() + Logging() + Printing() + ForMacs() + ForMacsToo() }

  function FirstLines(c: Config): seq<string> { Opening(c) + c.settings }

  function UsersOf(list: seq<Access>): (r: seq<string>)
    ensures |r| == |list|
  {
    seq(|list|, i requires 0 <= i < |list| => list[i].user)
  }

  function Writers(list: seq<Access>): seq<Access> {
    if list == [] then [] else (if list[0].level == "write" then [list[0]] else []) + Writers(list[1..])
  }

  /**
   * Who may open a share: everybody of the group when it has no list, else the listed, of whom the writers may write.
   */
  function AccessLines(x: Share, c: Config): seq<string> {
    match x.access
    case None => ["   read only = no", "   valid users = @" + c.group]
    case Some(list) =>
      ["   read only = yes", "   valid users = " + Join(UsersOf(list), ' ')]
      + if Writers(list) == [] then [] else ["   write list = " + Join(UsersOf(Writers(list)), ' ')]
  }

  /** A share is in smb.conf when it is on, mounted, and its list is not empty. */
  predicate InConf(o: Offer) { o.share.smb && o.mountpoint.Some? && o.share.access != Some([]) }

  function Where(o: Offer): seq<string>
    requires o.mountpoint.Some?
  {
    ["[" + NameOf(o.share.dataset) + "]", "   path = " + o.mountpoint.value, "   browseable = yes"]
  }

  function Masks(o: Offer, c: Config): seq<string> {
    [ "   force user = " + c.owner,
      "   force group = " + c.ownerGroup,
      "   create mask = 0664",
      "   directory mask = 0775",
      "   veto files = /.mk-drive/.zfs/" ]
    + if o.share.timeMachine then ["   fruit:time machine = yes", ""] else [""]
  }

  function Section(o: Offer, c: Config): seq<string>
    requires o.mountpoint.Some?
  {
    Where(o) + AccessLines(o.share, c) + Masks(o, c)
  }

  function Sections(offers: seq<Offer>, c: Config): seq<string> {
    if offers == [] then []
    else
      var o := offers[|offers| - 1];
      Sections(offers[..|offers| - 1], c) + if InConf(o) then Section(o, c) else []
  }

  function SmbConfText(offers: seq<Offer>, c: Config): string { Join(FirstLines(c) + Sections(offers, c), '\n') }

  /** The loop that pushes a section for each share that is in. */
  method SmbConf(offers: seq<Offer>, c: Config) returns (text: string)
    ensures text == SmbConfText(offers, c)
  {
    var out := [];
    for i := 0 to |offers|
      invariant out == Sections(offers[..i], c)
    {
      var o := offers[i];
      assert offers[..i + 1][..i] == offers[..i];
      if o.share.smb && o.mountpoint.Some? && o.share.access != Some([]) {
        out := out + Section(o, c);
      }
    }
    assert offers[..|offers|] == offers;
    text := Join(FirstLines(c) + out, '\n');
  }

  // ---- the exports ----

  function OptionsOf(c: Config): string {
    "(rw,sync,no_subtree_check," + "all_squash,anonuid=" + Dec(c.uid) + ",anongid=" + Dec(c.gid) + ")"
  }

  function ClientEntries(clients: seq<string>, c: Config): (r: seq<string>)
    ensures |r| == |clients|
  {
    seq(|clients|, i requires 0 <= i < |clients| => clients[i] + OptionsOf(c))
  }

  function ExportLine(o: Offer, c: Config): string
    requires o.mountpoint.Some?
  {
    if o.share.clients == [] then
      "# " + o.mountpoint.value + ": NFS is on but no hosts or networks" + " are allowed yet, so it is not exported"
    else o.mountpoint.value + " " + Join(ClientEntries(o.share.clients, c), ' ')
  }

  function ExportLines(offers: seq<Offer>, c: Config): seq<string> {
    if offers == [] then [Written()]
    else
      var o := offers[|offers| - 1];
      ExportLines(offers[..|offers| - 1], c) + if o.share.nfs && o.mountpoint.Some? then [ExportLine(o, c)] else []
  }

  function ExportsText(offers: seq<Offer>, c: Config): string { Join(ExportLines(offers, c), '\n') + "\n" }

  method Exports(offers: seq<Offer>, c: Config) returns (text: string)
    ensures text == ExportsText(offers, c)
  {
    var out := [Written()];
    for i := 0 to |offers|
      invariant out == ExportLines(offers[..i], c)
    {
      var o := offers[i];
      assert offers[..i + 1][..i] == offers[..i];
      if o.share.nfs && o.mountpoint.Some? {
        out := out + [ExportLine(o, c)];
      }
    }
    assert offers[..|offers|] == offers;
    text := Join(out, '\n') + "\n";
  }
}
