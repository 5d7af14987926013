/** The peer trust store projected from the log (src/trust.py): every mutation is an append, the view is
    cached, and monitor and shell events are appended behind the cache's back. */
module TrustManager {
  import opened Common
  import opened TrustLog
  import opened LogText

  const VALID_PROTOCOLS: set<string> := {"monitor", "chat", "split", "call", "drop", "view_dashboard", "shell"}

  predicate AllValid(perms: seq<string>) {
    forall p :: p in perms ==> p in VALID_PROTOCOLS || p == "*"
  }

  // ------------------------------------------------- authorization in the log

  ghost predicate IsUpdate(e: Entry, n: NodeId) { e.body.op.UpdatePermissions? && e.body.op.nid == n }

  /** The permissions an add or update entry lists; the defaults are those of the replay. */
  ghost function Listed(e: Entry): seq<string>
    requires e.body.op.AddPeer? || e.body.op.UpdatePermissions?
  {
    if e.body.op.AddPeer? then Default(e.body.op.perms, ["monitor"]) else Default(e.body.op.perms, [])
  }

  /** i is the last add of n, j the last entry from i on that sets n's permissions. */
  ghost predicate Grant(entries: seq<Entry>, n: NodeId, i: int, j: int) {
    && 0 <= i <= j < |entries|
    && IsAdd(entries[i], n)
    && (j == i || IsUpdate(entries[j], n))
    && (forall k :: i < k < |entries| ==> !IsAdd(entries[k], n))
    && (forall k :: j < k < |entries| ==> !IsUpdate(entries[k], n))
  }

  /** The declarative reading: n was added and not revoked since its last add, and the permissions set last
      since then contain p or the wildcard. */
  ghost predicate AuthorizedByLog(entries: seq<Entry>, n: NodeId, p: string) {
    exists i, j :: Grant(entries, n, i, j) && !RevokedAfter(entries, n, i)
                   && (p in Listed(entries[j]) || "*" in Listed(entries[j]))
  }

  predicate AuthorizedByView(v: PeerView, n: NodeId, p: string) {
    n in v && v[n].revokedAt == None && (p in v[n].perms || "*" in v[n].perms)
  }

  lemma GrantUnique(entries: seq<Entry>, n: NodeId, i: int, j: int, i': int, j': int)
    requires Grant(entries, n, i, j) && Grant(entries, n, i', j')
    ensures i == i' && j == j'
  {
    assert IsAdd(entries[i], n) && IsAdd(entries[i'], n);
    assert j == i || IsUpdate(entries[j], n);
    assert j' == i' || IsUpdate(entries[j'], n);
  }

  /** The entry that set n's permissions last is an update, or n's last add. */
  lemma GrantRead(entries: seq<Entry>, n: NodeId, row: Peer) returns (i: int, j: int)
    requires RowReads(entries, n, row)
    ensures Grant(entries, n, i, j) && row.perms == Listed(entries[j])
    ensures row.revokedAt.Some? <==> RevokedAfter(entries, n, i)
  {
    i :| LastAdd(entries, n, i) && RevocationReads(entries, n, i, row.revokedAt);
    assert ColumnReads(entries, n, Permissions, CellOf(row, Permissions));
    j :| LastPut(entries, n, Permissions, j) && Puts(entries[j], n, Permissions) == Some(Texts(row.perms));
    assert Puts(entries[i], n, Permissions).Some?;
    assert i <= j && (IsAdd(entries[j], n) || IsUpdate(entries[j], n));
    forall k | j < k < |entries| ensures !IsUpdate(entries[k], n) {
      assert Puts(entries[k], n, Permissions).None?;
    }
  }

  /** Looking n up in the replayed view answers the declarative question about the whole log. */
  lemma AuthorizationEqualsLog(entries: seq<Entry>, n: NodeId, p: string)
    ensures AuthorizedByView(Materialize(entries), n, p) <==> AuthorizedByLog(entries, n, p)
  {
    var v := Materialize(entries);
    MaterializeReads(entries, n);
    if n in v {
      var i, j := GrantRead(entries, n, v[n]);
      if AuthorizedByLog(entries, n, p) {
        var i', j' :| Grant(entries, n, i', j') && !RevokedAfter(entries, n, i')
                      && (p in Listed(entries[j']) || "*" in Listed(entries[j']));
        GrantUnique(entries, n, i, j, i', j');
      }
    }
  }

  /** An entry changes the authorization of the peer it adds, revokes or re-permits, and of no other. */
  lemma OnlyNamedPeerAffected(entries: seq<Entry>, e: Entry, n: NodeId, p: string)
    requires !IsAdd(e, n) && !IsRevoke(e, n) && !IsUpdate(e, n)
    ensures AuthorizedByLog(entries + [e], n, p) <==> AuthorizedByLog(entries, n, p)
  {
    AuthorizationEqualsLog(entries, n, p);
    AuthorizationEqualsLog(entries + [e], n, p);
    MaterializeAppend(entries, e);
    OtherEntryKeeps(Materialize(entries), e, n, p);
  }

  lemma OtherEntryKeeps(v: PeerView, e: Entry, n: NodeId, p: string)
    requires !IsAdd(e, n) && !IsRevoke(e, n) && !IsUpdate(e, n)
    ensures AuthorizedByView(ApplyEntry(v, e), n, p) <==> AuthorizedByView(v, n, p)
  {
  }

  /** Whoever is authorized after `e` was so before, unless `e` is about that peer. */
  ghost predicate OthersKeep(before: seq<Entry>, after: seq<Entry>, nid: Option<NodeId>) {
    forall n, p :: Some(n) != nid ==> (AuthorizedByLog(after, n, p) <==> AuthorizedByLog(before, n, p))
  }

  lemma OthersKeepAfter(entries: seq<Entry>, e: Entry, nid: Option<NodeId>)
    requires forall n :: IsAdd(e, n) || IsRevoke(e, n) || IsUpdate(e, n) ==> nid == Some(n)
    ensures OthersKeep(entries, entries + [e], nid)
  {
    forall n, p | Some(n) != nid ensures AuthorizedByLog(entries + [e], n, p) <==> AuthorizedByLog(entries, n, p) {
      OnlyNamedPeerAffected(entries, e, n, p);
    }
  }

  /** From an add on, the peer is authorized for exactly what the add lists. */
  lemma AddGrants(entries: seq<Entry>, e: Entry, n: NodeId)
    requires IsAdd(e, n)
    ensures forall p :: AuthorizedByLog(entries + [e], n, p) <==> p in Listed(e) || "*" in Listed(e)
  {
    MaterializeAppend(entries, e);
    forall p ensures AuthorizedByLog(entries + [e], n, p) <==> p in Listed(e) || "*" in Listed(e) {
      AuthorizationEqualsLog(entries + [e], n, p);
    }
  }

  /** From an update on, a peer that is not revoked is authorized for exactly what the update lists. */
  lemma UpdateGrants(entries: seq<Entry>, e: Entry, n: NodeId)
    requires IsUpdate(e, n) && n in Materialize(entries) && Materialize(entries)[n].revokedAt == None
    ensures forall p :: AuthorizedByLog(entries + [e], n, p) <==> p in Listed(e) || "*" in Listed(e)
  {
    MaterializeAppend(entries, e);
    forall p ensures AuthorizedByLog(entries + [e], n, p) <==> p in Listed(e) || "*" in Listed(e) {
      AuthorizationEqualsLog(entries + [e], n, p);
    }
  }

  /** From a revocation on, the peer is authorized for nothing. */
  lemma RevokeDenies(entries: seq<Entry>, e: Entry, n: NodeId)
    requires IsRevoke(e, n)
    ensures forall p :: !AuthorizedByLog(entries + [e], n, p)
  {
    MaterializeAppend(entries, e);
    forall p ensures !AuthorizedByLog(entries + [e], n, p) {
      AuthorizationEqualsLog(entries + [e], n, p);
    }
  }

  /** n was added, and of the entries that set or clear its window the last, after any add, set one that holds
      `now`, both ends included. */
  ghost predicate MaintainedByLog(entries: seq<Entry>, n: NodeId, now: Time) {
    EverAdded(entries, n) && exists j, start, end ::
      LastPut(entries, n, Window, j)
      && entries[j].body.op == Op.SetMaintenance(n, Some(start), Some(end)) && start <= now <= end
  }

  predicate MaintainedByView(v: PeerView, n: NodeId, now: Time) {
    n in v && v[n].maintStart.Some? && v[n].maintEnd.Some? && v[n].maintStart.value <= now <= v[n].maintEnd.value
  }

  /** The entry that set or cleared n's window last. */
  lemma WindowRead(entries: seq<Entry>, n: NodeId, row: Peer) returns (j: int)
    requires RowReads(entries, n, row)
    ensures LastPut(entries, n, Window, j) && Puts(entries[j], n, Window) == Some(Times(row.maintStart, row.maintEnd))
  {
    assert ColumnReads(entries, n, Window, CellOf(row, Window));
    j :| LastPut(entries, n, Window, j) && Puts(entries[j], n, Window) == Some(CellOf(row, Window));
  }

  /** Only a set_maintenance entry puts both ends there. */
  lemma WindowSetBy(e: Entry, n: NodeId, start: Time, end: Time)
    ensures Puts(e, n, Window) == Some(Times(Some(start), Some(end))) <==>
      e.body.op == Op.SetMaintenance(n, Some(start), Some(end))
  {
  }

  /** The window in the replayed view is the one the log sets last. */
  lemma MaintenanceEqualsLog(entries: seq<Entry>, n: NodeId, now: Time)
    ensures MaintainedByView(Materialize(entries), n, now) <==> MaintainedByLog(entries, n, now)
  {
    var v := Materialize(entries);
    MaterializeReads(entries, n);
    if n in v {
      var j := WindowRead(entries, n, v[n]);
      if MaintainedByView(v, n, now) {
        WindowSetBy(entries[j], n, v[n].maintStart.value, v[n].maintEnd.value);
      }
      if MaintainedByLog(entries, n, now) {
        var k, start, end :| LastPut(entries, n, Window, k)
          && entries[k].body.op == Op.SetMaintenance(n, Some(start), Some(end)) && start <= now <= end;
        assert k == j;
        WindowSetBy(entries[j], n, start, end);
      }
    }
  }

  // ------------------------------------------------------------- commands

  ghost predicate HasWindow(row: Peer) { row.maintStart.Some? || row.maintEnd.Some? }

  ghost predicate RowIs(v: PeerView, nid: NodeId, row: Peer) { nid in v && v[nid] == row }

  ghost predicate OtherRowsSame(before: PeerView, after: PeerView, nid: NodeId) {
    forall n :: n != nid ==> (n in before <==> n in after) && (n in before ==> before[n] == after[n])
  }

  /** Calls that may append; Record is an event the engine appends without going through the manager. */
  datatype Command =
    | Add(nid: NodeId, alias: Option<string>, perms: seq<string>, tags: seq<string>)
    | Revoke(nid: NodeId)
    | Update(nid: NodeId, newPerms: seq<string>)
    | SetAlias(nid: NodeId, newAlias: string)
    | SetTagList(nid: NodeId, tagList: seq<string>)
    | Maintain(nid: NodeId, start: Time, end: Time)
    | EndMaintenance(nid: NodeId)
    | Record(event: Op)

  /** The op a call appends, given the cached view; None when it refuses or has nothing to do. */
  function Decide(v: PeerView, cmd: Command): Option<Op> {
    match cmd
    case Add(nid, alias, perms, tags) =>
      var listed := if perms == [] then ["monitor"] else perms;
      if !AllValid(listed) || (nid in v && v[nid].revokedAt == None) then None
      else Some(AddPeer(nid, alias, Some(listed), if tags == [] then None else Some(tags)))
    case Revoke(nid) =>
      if nid in v && v[nid].revokedAt == None then Some(RevokePeer(nid)) else None
    case Update(nid, perms) =>
      if !AllValid(perms) || nid !in v || v[nid].revokedAt != None then None
      else Some(UpdatePermissions(nid, Some(perms)))
    case SetAlias(nid, alias) =>
      if nid in v then Some(AddPeerAlias(nid, Some(alias))) else None
    case SetTagList(nid, tags) =>
      if nid in v then Some(SetTags(nid, Some(tags))) else None
    case Maintain(nid, start, end) =>
      if start < end && nid in v then Some(SetMaintenance(nid, Some(start), Some(end))) else None
    case EndMaintenance(nid) =>
      if nid in v && (v[nid].maintStart != None || v[nid].maintEnd != None) then Some(ClearMaintenance(nid)) else None
    case Record(event) =>
      if IsEventOp(event) then Some(event) else None
  }

  datatype Manager = Manager(entries: seq<Entry>, view: PeerView)

  /** A mutation rebuilds the view after its append; an event does not. */
  function Exec(c: Crypto, m: Manager, cmd: Command, now: Time): Manager {
    var op := Decide(m.view, cmd);
    if op.None? then m else
      var entries := m.entries + [NextEntry(c, m.entries, op.value, now)];
      Manager(entries, if cmd.Record? then m.view else Materialize(entries))
  }

  /** Monitor and shell events leave the replayed view alone, so the cache stays right without a rebuild. */
  lemma EventKeepsView(entries: seq<Entry>, e: Entry)
    requires IsEventOp(e.body.op)
    ensures Materialize(entries + [e]) == Materialize(entries)
  {
    MaterializeAppend(entries, e);
  }

  lemma ExecKeepsView(c: Crypto, m: Manager, cmd: Command, now: Time)
    requires m.view == Materialize(m.entries)
    ensures Exec(c, m, cmd, now).view == Materialize(Exec(c, m, cmd, now).entries)
  {
    if cmd.Record? && IsEventOp(cmd.event) {
      EventKeepsView(m.entries, NextEntry(c, m.entries, cmd.event, now));
    }
  }

  /** What setting the tags does; their normalisation comes before. */
  lemma SetTagListDoes(c: Crypto, m: Manager, nid: NodeId, tags: seq<string>, now: Time)
    requires m.view == Materialize(m.entries)
    ensures var after := Exec(c, m, SetTagList(nid, tags), now);
      if nid in m.view then after.view == m.view[nid := m.view[nid].(tags := tags)] else after == m
  {
    MaterializeAppend(m.entries, NextEntry(c, m.entries, SetTags(nid, Some(tags)), now));
  }

  /** What can happen to a manager: a call, or a reload of a file that another process may have written. */
  datatype Action = Do(cmd: Command, now: Time) | FromFile(text: string)

  /** A file is taken over whole if it can be read and the chain is good, else not at all. */
  ghost function Act(c: Crypto, j: Codec<Entry>, checkSigs: bool, m: Manager, action: Action): Manager {
    match action
    case Do(cmd, now) => Exec(c, m, cmd, now)
    case FromFile(text) =>
      if Loadable(c, j, checkSigs, text) then Manager(Read(j, text).value, Materialize(Read(j, text).value)) else m
  }

  ghost function ActAll(c: Crypto, j: Codec<Entry>, checkSigs: bool, m: Manager, run: seq<Action>): Manager
    decreases run
  {
    if run == [] then m else ActAll(c, j, checkSigs, Act(c, j, checkSigs, m, run[0]), run[1..])
  }

  lemma {:induction false} ActAllKeepsView(c: Crypto, j: Codec<Entry>, checkSigs: bool, m: Manager, run: seq<Action>)
    requires m.view == Materialize(m.entries)
    ensures ActAll(c, j, checkSigs, m, run).view == Materialize(ActAll(c, j, checkSigs, m, run).entries)
    decreases run
  {
    if run != [] {
      if run[0].Do? {
        ExecKeepsView(c, m, run[0].cmd, run[0].now);
      }
      ActAllKeepsView(c, j, checkSigs, Act(c, j, checkSigs, m, run[0]), run[1..]);
    }
  }

  /** In every reachable state, reloads of foreign files included, the cached view answers the declarative
      question about the whole log. */
  lemma AuthorizedInEveryRun(c: Crypto, j: Codec<Entry>, checkSigs: bool, run: seq<Action>, n: NodeId, p: string)
    ensures var m := ActAll(c, j, checkSigs, Manager([], map[]), run);
      AuthorizedByView(m.view, n, p) <==> AuthorizedByLog(m.entries, n, p)
  {
    ActAllKeepsView(c, j, checkSigs, Manager([], map[]), run);
    AuthorizationEqualsLog(ActAll(c, j, checkSigs, Manager([], map[]), run).entries, n, p);
  }

  /** And it has exactly the peers ever added, each with the row that the log gives it. */
  lemma ViewInEveryRun(c: Crypto, j: Codec<Entry>, checkSigs: bool, run: seq<Action>, n: NodeId)
    ensures var m := ActAll(c, j, checkSigs, Manager([], map[]), run);
      ViewReads(m.entries, m.view, n)
  {
    ActAllKeepsView(c, j, checkSigs, Manager([], map[]), run);
    MaterializeReads(ActAll(c, j, checkSigs, Manager([], map[]), run).entries, n);
  }

  lemma ExecKeepsChain(c: Crypto, checkSigs: bool, m: Manager, cmd: Command, now: Time)
    requires SignaturesVerify(c) && ChainOk(c, checkSigs, m.entries)
    ensures ChainOk(c, checkSigs, Exec(c, m, cmd, now).entries)
  {
    var op := Decide(m.view, cmd);
    if op.Some? {
      AppendKeepsChain(c, checkSigs, m.entries, op.value, now);
    }
  }

  /** And every reachable log would pass the chain verification of a load. */
  lemma {:induction false} ChainInEveryRun(c: Crypto, j: Codec<Entry>, checkSigs: bool, m: Manager, run: seq<Action>)
    requires SignaturesVerify(c) && ChainOk(c, checkSigs, m.entries)
    ensures ChainOk(c, checkSigs, ActAll(c, j, checkSigs, m, run).entries)
    decreases run
  {
    if run != [] {
      if run[0].Do? {
        ExecKeepsChain(c, checkSigs, m, run[0].cmd, run[0].now);
      }
      ChainInEveryRun(c, j, checkSigs, Act(c, j, checkSigs, m, run[0]), run[1..]);
    }
  }

  ghost predicate OnlyValid(v: PeerView) {
    forall n :: n in v ==> AllValid(v[n].perms)
  }

  /** The entry lists no protocol that does not exist. */
  ghost predicate ListsValid(e: Entry) {
    e.body.op.AddPeer? || e.body.op.UpdatePermissions? ==> AllValid(Listed(e))
  }

  ghost predicate FilesListValid(j: Codec<Entry>, run: seq<Action>) {
    forall i :: 0 <= i < |run| && run[i].FromFile? && Read(j, run[i].text).Some? ==>
      forall e :: e in Read(j, run[i].text).value ==> ListsValid(e)
  }

  lemma {:induction false} ListedIsOnlyValid(entries: seq<Entry>)
    requires forall e :: e in entries ==> ListsValid(e)
    ensures OnlyValid(Materialize(entries))
    decreases |entries|
  {
    if entries != [] {
      ListedIsOnlyValid(entries[..|entries| - 1]);
      assert ListsValid(entries[|entries| - 1]);
    }
  }

  lemma ExecKeepsValid(c: Crypto, m: Manager, cmd: Command, now: Time)
    requires m.view == Materialize(m.entries) && OnlyValid(m.view)
    ensures OnlyValid(Exec(c, m, cmd, now).view)
  {
    var op := Decide(m.view, cmd);
    if op.Some? {
      MaterializeAppend(m.entries, NextEntry(c, m.entries, op.value, now));
    }
  }

  lemma {:induction false} ActAllKeepsValid(c: Crypto, j: Codec<Entry>, checkSigs: bool, m: Manager, run: seq<Action>)
    requires m.view == Materialize(m.entries) && OnlyValid(m.view) && FilesListValid(j, run)
    ensures OnlyValid(ActAll(c, j, checkSigs, m, run).view)
    decreases run
  {
    if run != [] {
      match run[0] {
        case Do(cmd, now) =>
          ExecKeepsView(c, m, cmd, now);
          ExecKeepsValid(c, m, cmd, now);
        case FromFile(text) =>
          if Read(j, text).Some? {
            ListedIsOnlyValid(Read(j, text).value);
          }
      }
      assert FilesListValid(j, run[1..]) by {
        assert forall i :: 0 <= i < |run[1..]| ==> run[1..][i] == run[i + 1];
      }
      ActAllKeepsValid(c, j, checkSigs, Act(c, j, checkSigs, m, run[0]), run[1..]);
    }
  }

  /** Whatever is called, the log never authorizes a peer for a protocol that does not exist unless the peer
      holds the wildcard, as long as the files that are reloaded list none either. */
  lemma OnlyKnownProtocols(c: Crypto, j: Codec<Entry>, checkSigs: bool, run: seq<Action>, n: NodeId, p: string)
    requires p !in VALID_PROTOCOLS && FilesListValid(j, run)
    ensures var m := ActAll(c, j, checkSigs, Manager([], map[]), run);
      AuthorizedByLog(m.entries, n, p) <==> AuthorizedByLog(m.entries, n, "*")
  {
    var m := ActAll(c, j, checkSigs, Manager([], map[]), run);
    ActAllKeepsView(c, j, checkSigs, Manager([], map[]), run);
    ActAllKeepsValid(c, j, checkSigs, Manager([], map[]), run);
    AuthorizationEqualsLog(m.entries, n, p);
    AuthorizationEqualsLog(m.entries, n, "*");
  }

  /** JSON text keeps characters outside ASCII as they are; so those of an alias show up in the written entry. */
  ghost predicate AliasVerbatim(j: Codec<Entry>) {
    forall e: Entry, ch: char ::
      e.body.op.AddPeer? && e.body.op.alias.Some? && ch in e.body.op.alias.value && ch >= '\U{80}' ==>
        ch in j.text(e)
  }

  /** It happens: an alias with a line separator. The call succeeds and the peer is trusted, but no load will ever
      accept the file again. */
  lemma AliasBreaksLog(c: Crypto, j: Codec<Entry>, checkSigs: bool, nid: NodeId, now: Time, more: string)
    requires SignaturesVerify(c) && JsonText(j) && AliasVerbatim(j)
    ensures var m := Exec(c, Manager([], map[]), Add(nid, Some("a\U{2028}b"), [], []), now);
      && AuthorizedByLog(m.entries, nid, "monitor")
      && !Loadable(c, j, checkSigs, Text(j, m.entries) + more)
  {
    var m := Exec(c, Manager([], map[]), Add(nid, Some("a\U{2028}b"), [], []), now);
    var op := AddPeer(nid, Some("a\U{2028}b"), Some(["monitor"]), None);
    var e := NextEntry(c, [], op, now);
    assert m.entries == [] + [e] == [e];
    AddGrants([], e, nid);
    assert "a\U{2028}b"[1] == '\U{2028}';
    assert '\U{2028}' in e.body.op.alias.value;
    BreaksLeft(j, e);
    TextReadsBackIff(j, m.entries);
    assert e in m.entries;
    UnreadableForGood(j, Text(j, m.entries), more);
  }

  // -------------------------------------------------------------- the class

  datatype Answer = Yes | No | Raised

  class PeerTrustManager {
    const log: TrustLog
    const ownNodeId: NodeId
    var peersByNid: PeerView

    ghost predicate Valid()
      reads this, log
    {
      log.Valid() && peersByNid == Materialize(log.entries)
    }

    ghost function View(): Manager
      reads this, log
    {
      Manager(log.entries, peersByNid)
    }

    /** `load`. */
    constructor (log: TrustLog, ownNodeId: NodeId)
      requires log.Valid()
      ensures Valid() && this.log == log && this.ownNodeId == ownNodeId
    {
      this.log, this.ownNodeId := log, ownNodeId;
      new;
      peersByNid := log.MaterializePeers();
    }

    /** Append, then `_rebuild_from_log`. */
    method AppendAndRebuild(op: Op, now: Time, mtime: nat) returns (answer: Answer)
      requires Valid() && !op.Foreign?
      modifies this, log, log.file
      ensures Valid()
      ensures answer == if log.canSign then Yes else Raised
      ensures answer == Yes ==> log.entries == old(log.entries) + [NextEntry(log.crypto, old(log.entries), op, now)]
      ensures answer == Yes ==> peersByNid == ApplyEntry(old(peersByNid), log.entries[|log.entries| - 1])
      ensures answer == Raised ==> log.entries == old(log.entries)
    {
      MaterializeAppend(log.entries, NextEntry(log.crypto, log.entries, op, now));
      var r := log.Append(op, now, mtime);
      if !r.Appended? {
        return Raised;
      }
      peersByNid := log.MaterializePeers();
      answer := Yes;
    }

    /** `verify_and_authorize`. */
    method VerifyAndAuthorize(nid: NodeId, protocol: string) returns (ok: bool)
      requires Valid()
      ensures ok <==> nid == ownNodeId || AuthorizedByLog(log.entries, nid, protocol)
    {
      AuthorizationEqualsLog(log.entries, nid, protocol);
      if nid == ownNodeId {
        return true;
      }
      if nid !in peersByNid {
        return false;
      }
      var peer := peersByNid[nid];
      if peer.revokedAt != None {
        return false;
      }
      if protocol !in peer.perms && "*" !in peer.perms {
        return false;
      }
      ok := true;
    }

    /** `peers_with_permission`, as a set of node ids. */
    method PeersWithPermission(protocol: string) returns (nids: set<NodeId>)
      requires Valid()
      ensures forall n :: n in nids <==> AuthorizedByLog(log.entries, n, protocol)
    {
      nids := set n | n in peersByNid && AuthorizedByView(peersByNid, n, protocol);
      forall n ensures n in nids <==> AuthorizedByLog(log.entries, n, protocol) {
        AuthorizationEqualsLog(log.entries, n, protocol);
      }
    }

    method AddPeer(nid: NodeId, alias: Option<string>, permissions: seq<string>, tags: seq<string>,
                   now: Time, mtime: nat)
      returns (answer: Answer)
      requires Valid()
      modifies this, log, log.file
      ensures Valid()
      ensures answer == No <==>
        || (exists p :: p in permissions && p !in VALID_PROTOCOLS && p != "*")
        || (nid in old(peersByNid) && old(peersByNid)[nid].revokedAt == None)
      ensures answer != Raised ==> View() == Exec(log.crypto, old(View()), Add(nid, alias, permissions, tags), now)
      ensures answer == Yes ==>
        RowIs(peersByNid, nid, Peer(alias, if permissions == [] then ["monitor"] else permissions, tags,
                                    None, None, now, None))
      ensures answer == Yes ==> OtherRowsSame(old(peersByNid), peersByNid, nid)
      ensures answer == Yes ==> forall p :: AuthorizedByLog(log.entries, nid, p) <==>
        p in permissions || "*" in permissions || (permissions == [] && p == "monitor")
      ensures answer == Yes ==> OthersKeep(old(log.entries), log.entries, Some(nid))
      ensures answer != Yes ==> View() == old(View())
      ensures answer == Raised ==> !log.canSign
    {
      var perms := if permissions == [] then ["monitor"] else permissions;
      if !AllValid(perms) {
        return No;
      }
      if nid in peersByNid && peersByNid[nid].revokedAt == None {
        return No;
      }
      ghost var before := log.entries;
      var listed := if tags == [] then None else Some(tags);
      answer := AppendAndRebuild(Op.AddPeer(nid, alias, Some(perms), listed), now, mtime);
      if answer == Yes {
        AddGrants(before, log.entries[|before|], nid);
        OthersKeepAfter(before, log.entries[|before|], Some(nid));
      }
    }

    method RevokePeer(nid: NodeId, now: Time, mtime: nat) returns (answer: Answer)
      requires Valid()
      modifies this, log, log.file
      ensures Valid()
      ensures answer == No <==> nid !in old(peersByNid) || old(peersByNid)[nid].revokedAt.Some?
      ensures answer != Raised ==> View() == Exec(log.crypto, old(View()), Revoke(nid), now)
      ensures answer == Yes ==> RowIs(peersByNid, nid, old(peersByNid)[nid].(revokedAt := Some(now)))
      ensures answer == Yes ==> OtherRowsSame(old(peersByNid), peersByNid, nid)
      ensures answer == Yes ==> forall p :: !AuthorizedByLog(log.entries, nid, p)
      ensures answer == Yes ==> OthersKeep(old(log.entries), log.entries, Some(nid))
      ensures answer != Yes ==> View() == old(View())
      ensures answer == Raised ==> !log.canSign
    {
      if nid !in peersByNid {
        return No;
      }
      if peersByNid[nid].revokedAt != None {
        return No;
      }
      ghost var before := log.entries;
      answer := AppendAndRebuild(Op.RevokePeer(nid), now, mtime);
      if answer == Yes {
        RevokeDenies(before, log.entries[|before|], nid);
        OthersKeepAfter(before, log.entries[|before|], Some(nid));
      }
    }

    method UpdatePermissions(nid: NodeId, permissions: seq<string>, now: Time, mtime: nat) returns (answer: Answer)
      requires Valid()
      modifies this, log, log.file
      ensures Valid()
      ensures answer == No <==>
        || (exists p :: p in permissions && p !in VALID_PROTOCOLS && p != "*")
        || nid !in old(peersByNid) || old(peersByNid)[nid].revokedAt.Some?
      ensures answer != Raised ==> View() == Exec(log.crypto, old(View()), Update(nid, permissions), now)
      ensures answer == Yes ==> RowIs(peersByNid, nid, old(peersByNid)[nid].(perms := permissions))
      ensures answer == Yes ==> OtherRowsSame(old(peersByNid), peersByNid, nid)
      ensures answer == Yes ==> forall p :: AuthorizedByLog(log.entries, nid, p) <==>
          p in permissions || "*" in permissions
      ensures answer == Yes ==> OthersKeep(old(log.entries), log.entries, Some(nid))
      ensures answer != Yes ==> View() == old(View())
      ensures answer == Raised ==> !log.canSign
    {
      if !AllValid(permissions) {
        return No;
      }
      if nid !in peersByNid {
        return No;
      }
      if peersByNid[nid].revokedAt != None {
        return No;
      }
      ghost var before := log.entries;
      answer := AppendAndRebuild(Op.UpdatePermissions(nid, Some(permissions)), now, mtime);
      if answer == Yes {
        UpdateGrants(before, log.entries[|before|], nid);
        OthersKeepAfter(before, log.entries[|before|], Some(nid));
      }
    }

    method SetMaintenance(nid: NodeId, start: Time, end: Time, now: Time, mtime: nat) returns (answer: Answer)
      requires Valid()
      modifies this, log, log.file
      ensures Valid()
      ensures answer == No <==> end <= start || nid !in old(peersByNid)
      ensures answer != Raised ==> View() == Exec(log.crypto, old(View()), Maintain(nid, start, end), now)
      ensures answer == Yes ==>
        RowIs(peersByNid, nid, old(peersByNid)[nid].(maintStart := Some(start), maintEnd := Some(end)))
      ensures answer == Yes ==> OtherRowsSame(old(peersByNid), peersByNid, nid)
      ensures answer == Yes ==> OthersKeep(old(log.entries), log.entries, None)
      ensures answer != Yes ==> View() == old(View())
      ensures answer == Raised ==> !log.canSign
    {
      if end <= start {
        return No;
      }
      if nid !in peersByNid {
        return No;
      }
      ghost var before := log.entries;
      answer := AppendAndRebuild(Op.SetMaintenance(nid, Some(start), Some(end)), now, mtime);
      if answer == Yes {
        OthersKeepAfter(before, log.entries[|before|], None);
      }
    }

    method SetAlias(nid: NodeId, alias: string, now: Time, mtime: nat) returns (answer: Answer)
      requires Valid()
      modifies this, log, log.file
      ensures Valid()
      ensures answer == No <==> nid !in old(peersByNid)
      ensures answer != Raised ==> View() == Exec(log.crypto, old(View()), Command.SetAlias(nid, alias), now)
      ensures answer == Yes ==> RowIs(peersByNid, nid, old(peersByNid)[nid].(alias := Some(alias)))
      ensures answer == Yes ==> OtherRowsSame(old(peersByNid), peersByNid, nid)
      ensures answer != Yes ==> View() == old(View())
      ensures answer == Raised ==> !log.canSign
    {
      if nid !in peersByNid {
        return No;
      }
      answer := AppendAndRebuild(AddPeerAlias(nid, Some(alias)), now, mtime);
    }

    /** Without a window there is nothing to append. */
    method ClearMaintenance(nid: NodeId, now: Time, mtime: nat) returns (answer: Answer)
      requires Valid()
      modifies this, log, log.file
      ensures Valid()
      ensures answer == No <==> nid !in old(peersByNid)
      ensures answer != Raised ==> View() == Exec(log.crypto, old(View()), EndMaintenance(nid), now)
      ensures answer == Yes ==> RowIs(peersByNid, nid, old(peersByNid)[nid].(maintStart := None, maintEnd := None))
      ensures answer == Yes ==> OtherRowsSame(old(peersByNid), peersByNid, nid)
      ensures answer == Yes && !HasWindow(old(peersByNid)[nid]) ==> View() == old(View())
      ensures answer == Yes && HasWindow(old(peersByNid)[nid]) ==> |log.entries| == |old(log.entries)| + 1
      ensures answer != Yes ==> View() == old(View())
      ensures answer == Raised ==> !log.canSign
    {
      if nid !in peersByNid {
        return No;
      }
      if peersByNid[nid].maintStart == None && peersByNid[nid].maintEnd == None {
        return Yes;
      }
      answer := AppendAndRebuild(Op.ClearMaintenance(nid), now, mtime);
    }

    /** `get_peer` and `in_maintenance`. */
    method InMaintenance(nid: NodeId, now: Time) returns (inside: bool)
      requires Valid()
      ensures inside <==> MaintainedByLog(log.entries, nid, now)
    {
      MaintenanceEqualsLog(log.entries, nid, now);
      if nid !in peersByNid {
        return false;
      }
      var peer := peersByNid[nid];
      if peer.maintStart == None || peer.maintEnd == None {
        return false;
      }
      inside := peer.maintStart.value <= now <= peer.maintEnd.value;
    }

    /** The engine's direct `log.append` of a monitor or shell event: the cache is not rebuilt and needs no rebuild. */
    method EngineAppends(event: Op, now: Time, mtime: nat) returns (answer: Answer)
      requires Valid() && IsEventOp(event)
      modifies log, log.file
      ensures Valid()
      ensures peersByNid == old(peersByNid)
      ensures answer == Yes ==> View() == Exec(log.crypto, old(View()), Record(event), now)
      ensures answer != Yes ==> View() == old(View()) && !log.canSign
    {
      var r := log.Append(event, now, mtime);
      if !r.Appended? {
        return Raised;
      }
      ghost var n := |log.entries| - 1;
      EventKeepsView(log.entries[..n], log.entries[n]);
      assert log.entries == log.entries[..n] + [log.entries[n]];
      answer := Yes;
    }

    /** `reload_if_changed`. */
    method ReloadIfChanged() returns (r: ReloadResult)
      requires Valid()
      modifies this, log
      ensures Valid()
      ensures r == Reloaded ==> Read(log.json, log.file.text) == Some(log.entries)
      ensures r != Reloaded ==> View() == old(View())
      ensures r != Unchanged && r != NoFile ==>
        View() == Act(log.crypto, log.json, log.checkSigs, old(View()), FromFile(log.file.text))
    {
      r := log.ReloadIfChanged();
      if r == Reloaded {
        peersByNid := log.MaterializePeers();
      }
    }
  }
}
