/** The signed, hash-chained, append-only trust log and the peer view replayed from it (src/log.py). */
module TrustLog {
  import opened Common
  import opened LogText

  type NodeId = string
  type Time = int
  type Digest = string
  type Signature = string

  const ZERO_HASH: Digest := "0000000000000000000000000000000000000000000000000000000000000000"
  const MONITOR_EVENT_TAIL := 256

  /** A typed operation with its data; a field the JSON may lack is an Option. `Foreign` is a type string
      outside OP_TYPES. */
  datatype Op =
    | Genesis(self: NodeId)
    | AddPeer(nid: NodeId, alias: Option<string>, perms: Option<seq<string>>, tags: Option<seq<string>>)
    | RevokePeer(nid: NodeId)
    | UpdatePermissions(nid: NodeId, perms: Option<seq<string>>)
    | SetVisibility(nid: NodeId)
    | AddPeerAlias(nid: NodeId, alias: Option<string>)
    | SetTags(nid: NodeId, tags: Option<seq<string>>)
    | SetMaintenance(nid: NodeId, start: Option<Time>, end: Option<Time>)
    | ClearMaintenance(nid: NodeId)
    | MonitorDown(nid: NodeId, count: nat)
    | MonitorUp(nid: NodeId, count: nat)
    | ShellOpen(nid: NodeId)
    | ShellClose(nid: NodeId)
    | Foreign(typeName: string)

  predicate IsMonitorEvent(op: Op) { op.MonitorDown? || op.MonitorUp? }

  /** The fields a signature covers. */
  datatype Signed = Signed(seqno: int, op: Op, timestamp: Time, prevHash: Digest)
  datatype Entry = Entry(body: Signed, sig: Signature)

  /** The library calls: SHA-256 of an entry, and the node's Ed25519 key pair. */
  datatype Crypto = Crypto(hash: Entry -> Digest, sign: Signed -> Signature, verify: (Signed, Signature) -> bool)

  ghost predicate SignaturesVerify(c: Crypto) {
    forall p :: c.verify(p, c.sign(p))
  }

  ghost predicate CollisionFree(hash: Entry -> Digest) {
    forall a, b :: hash(a) == hash(b) ==> a == b
  }

  // ------------------------------------------------------------ the chain

  datatype ChainError = SeqGap | HashMismatch | UnknownOp | BadSignature

  function Head(c: Crypto, entries: seq<Entry>): (int, Digest) {
    if entries == [] then (-1, ZERO_HASH) else
      var last := entries[|entries| - 1];
      (last.body.seqno, c.hash(last))
  }

  /** What `_verify_chain` checks of one entry, given the entries before it. */
  function CheckEntry(c: Crypto, checkSigs: bool, before: (int, Digest), e: Entry): Option<ChainError> {
    if e.body.seqno != before.0 + 1 then Some(SeqGap)
    else if e.body.prevHash != before.1 then Some(HashMismatch)
    else if e.body.op.Foreign? then Some(UnknownOp)
    else if checkSigs && !c.verify(e.body, e.sig) then Some(BadSignature)
    else None
  }

  /** Entry i is numbered i, linked to entry i-1, of a known type and (when sigs are checked) signed. */
  ghost predicate Linked(c: Crypto, checkSigs: bool, entries: seq<Entry>, i: nat)
    requires i < |entries|
  {
    && entries[i].body.seqno == i
    && entries[i].body.prevHash == (if i == 0 then ZERO_HASH else c.hash(entries[i - 1]))
    && !entries[i].body.op.Foreign?
    && (checkSigs ==> c.verify(entries[i].body, entries[i].sig))
  }

  ghost predicate ChainOk(c: Crypto, checkSigs: bool, entries: seq<Entry>) {
    forall i :: 0 <= i < |entries| ==> Linked(c, checkSigs, entries, i)
  }

  /** `_verify_chain`: no error exactly when every entry is in place. */
  method VerifyChain(c: Crypto, checkSigs: bool, entries: seq<Entry>) returns (error: Option<ChainError>)
    ensures error == None <==> ChainOk(c, checkSigs, entries)
  {
    var prevHash: Digest := ZERO_HASH;
    var prevSeq := -1;
    for i := 0 to |entries|
      invariant (prevSeq, prevHash) == Head(c, entries[..i])
      invariant prevSeq == i - 1
      invariant forall k :: 0 <= k < i ==> Linked(c, checkSigs, entries, k)
    {
      var entry := entries[i];
      error := CheckEntry(c, checkSigs, (prevSeq, prevHash), entry);
      if error != None {
        assert !Linked(c, checkSigs, entries, i);
        return;
      }
      assert Linked(c, checkSigs, entries, i);
      prevHash := c.hash(entry);
      prevSeq := entry.body.seqno;
    }
    error := None;
  }

  /** The entry `append` builds. */
  function NextEntry(c: Crypto, entries: seq<Entry>, op: Op, now: Time): Entry {
    var (seqno, prevHash) := Head(c, entries);
    var body := Signed(seqno + 1, op, now, prevHash);
    Entry(body, c.sign(body))
  }

  /** Appending a known op to a good chain gives a good chain. */
  lemma AppendKeepsChain(c: Crypto, checkSigs: bool, entries: seq<Entry>, op: Op, now: Time)
    requires SignaturesVerify(c) && ChainOk(c, checkSigs, entries) && !op.Foreign?
    ensures ChainOk(c, checkSigs, entries + [NextEntry(c, entries, op, now)])
  {
    var all := entries + [NextEntry(c, entries, op, now)];
    forall i | 0 <= i < |all| ensures Linked(c, checkSigs, all, i) {
      if i < |entries| {
        assert Linked(c, checkSigs, entries, i);
      } else if i > 0 {
        assert Linked(c, checkSigs, entries, i - 1);
      }
    }
  }

  /** Two good logs with the same head are the same log. */
  lemma {:induction false} SameHeadSameLog(c: Crypto, d: Crypto, checkA: bool, checkB: bool,
                                          a: seq<Entry>, b: seq<Entry>)
    requires CollisionFree(c.hash) && c.hash == d.hash
    requires ChainOk(c, checkA, a) && ChainOk(d, checkB, b)
    requires Head(c, a) == Head(d, b)
    ensures a == b
    decreases |a|
  {
    if a != [] {
      assert Linked(c, checkA, a, |a| - 1);
    }
    if b != [] {
      assert Linked(d, checkB, b, |b| - 1);
    }
    assert |a| == |b|;
    if a != [] {
      var n := |a| - 1;
      assert a[n] == b[n];
      forall i | 0 <= i < n ensures Linked(c, checkA, a[..n], i) { assert Linked(c, checkA, a, i); }
      forall i | 0 <= i < n ensures Linked(d, checkB, b[..n], i) { assert Linked(d, checkB, b, i); }
      assert n > 0 ==> Linked(c, checkA, a, n - 1) && Linked(d, checkB, b, n - 1);
      SameHeadSameLog(c, d, checkA, checkB, a[..n], b[..n]);
      assert a == a[..n] + [a[n]] && b == b[..n] + [b[n]];
    }
  }

  /** An entry appended to a good chain keeps it good if and only if it was built on that chain. */
  lemma ExtendsOwnChainOnly(c: Crypto, checkSigs: bool, memory: seq<Entry>, file: seq<Entry>, op: Op, now: Time)
    requires SignaturesVerify(c) && CollisionFree(c.hash) && !op.Foreign?
    requires ChainOk(c, checkSigs, memory) && ChainOk(c, checkSigs, file)
    ensures ChainOk(c, checkSigs, file + [NextEntry(c, memory, op, now)]) <==> memory == file
  {
    var next := NextEntry(c, memory, op, now);
    var all := file + [next];
    if memory == file {
      AppendKeepsChain(c, checkSigs, file, op, now);
    }
    if ChainOk(c, checkSigs, all) {
      assert Linked(c, checkSigs, all, |file|);
      assert file != [] ==> Linked(c, checkSigs, file, |file| - 1);
      SameHeadSameLog(c, c, checkSigs, checkSigs, memory, file);
    }
  }

  /** When another process shares the file, an append from memory leaves the file loadable if and only if the
      log in memory was the log in the file and the written text is one line. */
  lemma SharedFileStaysGoodIff(c: Crypto, j: Codec<Entry>, checkSigs: bool, memory: seq<Entry>, text: string,
                               op: Op, now: Time)
    requires SignaturesVerify(c) && CollisionFree(c.hash) && JsonText(j) && !op.Foreign?
    requires ChainOk(c, checkSigs, memory) && Complete(text) && Loadable(c, j, checkSigs, text)
    ensures var next := NextEntry(c, memory, op, now);
      Loadable(c, j, checkSigs, text + Written(j, next)) <==>
        Read(j, text) == Some(memory) && OneLine(j.text(next))
  {
    ReadAppended(j, text, NextEntry(c, memory, op, now));
    ExtendsOwnChainOnly(c, checkSigs, memory, Read(j, text).value, op, now);
  }

  /** It happens to any two processes that start from the same log: the first append is fine, the second repeats
      a seq, and then the file cannot be loaded, whatever is appended later. */
  lemma StaleAppendCannotLoad(c: Crypto, j: Codec<Entry>, checkSigs: bool, base: seq<Entry>, text: string,
                              theirs: Op, ours: Op, t1: Time, t2: Time, more: string)
    requires SignaturesVerify(c) && JsonText(j) && !theirs.Foreign?
    requires ChainOk(c, checkSigs, base) && Complete(text) && Read(j, text) == Some(base)
    ensures var first, second := NextEntry(c, base, theirs, t1), NextEntry(c, base, ours, t2);
      && (OneLine(j.text(first)) ==> Loadable(c, j, checkSigs, text + Written(j, first)))
      && !Loadable(c, j, checkSigs, text + Written(j, first) + Written(j, second) + more)
  {
    var first, second := NextEntry(c, base, theirs, t1), NextEntry(c, base, ours, t2);
    var file := text + Written(j, first);
    AppendKeepsChain(c, checkSigs, base, theirs, t1);
    ReadAppended(j, text, first);
    ReadAppended(j, file, second);
    ReadAppend(j, file + Written(j, second), more);
    assert base != [] ==> Linked(c, checkSigs, base, |base| - 1);
    if Read(j, file + Written(j, second) + more).Some? {
      var all := Read(j, file + Written(j, second) + more).value;
      assert all[|base| + 1] == second;
      assert !Linked(c, checkSigs, all, |base| + 1);
    }
  }

  /** `ops_since`. */
  method OpsSince(c: Crypto, checkSigs: bool, entries: seq<Entry>, since: int) returns (ops: seq<Entry>)
    requires ChainOk(c, checkSigs, entries)
    ensures ops == if since < -1 then entries else if since >= |entries| then [] else entries[since + 1..]
  {
    ops := [];
    for i := 0 to |entries|
      invariant ops == if since < -1 then entries[..i] else if since + 1 >= i then [] else entries[since + 1..i]
    {
      assert Linked(c, checkSigs, entries, i);
      if entries[i].body.seqno > since {
        ops := ops + [entries[i]];
      }
    }
  }

  // --------------------------------------------------------- monitor tail

  function MonitorOnly(): Entry -> Option<Entry> {
    (e: Entry) => if IsMonitorEvent(e.body.op) then Some(e) else None
  }

  function About(nid: NodeId): Entry -> Option<Entry> {
    (e: Entry) => if IsMonitorEvent(e.body.op) && e.body.op.nid == nid then Some(e) else None
  }

  function MonitorEvents(entries: seq<Entry>): seq<Entry> {
    Collect(entries, MonitorOnly())
  }

  /** The last 256 monitor entries. */
  function MonitorTail(entries: seq<Entry>): seq<Entry> {
    LastN(MonitorEvents(entries), MONITOR_EVENT_TAIL)
  }

  lemma TailAppend(entries: seq<Entry>, e: Entry)
    ensures MonitorTail(entries + [e]) ==
      if e.body.op.MonitorDown? || e.body.op.MonitorUp? then LastN(MonitorTail(entries) + [e], 256)
      else MonitorTail(entries)
  {
    CollectSnoc(entries, e, MonitorOnly());
    LastNAppend(MonitorEvents(entries), e, MONITOR_EVENT_TAIL);
  }

  /** `_monitor_tail_from`, the from-scratch form used on load. */
  method MonitorTailFrom(entries: seq<Entry>) returns (tail: seq<Entry>)
    ensures tail == MonitorTail(entries)
  {
    tail := [];
    for i := 0 to |entries|
      invariant tail == MonitorTail(entries[..i])
    {
      TailAppend(entries[..i], entries[i]);
      assert entries[..i + 1] == entries[..i] + [entries[i]];
      if IsMonitorEvent(entries[i].body.op) {
        tail := LastN(tail + [entries[i]], MONITOR_EVENT_TAIL);
      }
    }
    assert entries[..|entries|] == entries;
  }

  // ------------------------------------------------------------ peer view

  datatype Peer = Peer(alias: Option<string>, perms: seq<string>, tags: seq<string>,
                       maintStart: Option<Time>, maintEnd: Option<Time>, addedAt: Time, revokedAt: Option<Time>)

  type PeerView = map<NodeId, Peer>

  function Default<T>(x: Option<T>, d: T): T { if x.Some? then x.value else d }

  /** One iteration of `materialize_peers`. */
  function ApplyEntry(v: PeerView, e: Entry): PeerView {
    match e.body.op
    case AddPeer(nid, alias, perms, tags) =>
      v[nid := Peer(alias, Default(perms, ["monitor"]), Default(tags, []), None, None, e.body.timestamp, None)]
    case RevokePeer(nid) =>
      if nid in v && v[nid].revokedAt == None then v[nid := v[nid].(revokedAt := Some(e.body.timestamp))] else v
    case UpdatePermissions(nid, perms) =>
      if nid in v then v[nid := v[nid].(perms := Default(perms, []))] else v
    case AddPeerAlias(nid, alias) =>
      if nid in v then v[nid := v[nid].(alias := alias)] else v
    case SetTags(nid, tags) =>
      if nid in v then v[nid := v[nid].(tags := Default(tags, []))] else v
    case SetMaintenance(nid, start, end) =>
      if nid in v then v[nid := v[nid].(maintStart := start, maintEnd := end)] else v
    case ClearMaintenance(nid) =>
      if nid in v then v[nid := v[nid].(maintStart := None, maintEnd := None)] else v
    case _ => v
  }

  function Materialize(entries: seq<Entry>): PeerView
    decreases |entries|
  {
    if entries == [] then map[] else ApplyEntry(Materialize(entries[..|entries| - 1]), entries[|entries| - 1])
  }

  lemma MaterializeAppend(entries: seq<Entry>, e: Entry)
    ensures Materialize(entries + [e]) == ApplyEntry(Materialize(entries), e)
  {
    assert (entries + [e])[..|entries|] == entries;
  }

  // ------------------------------------------- what the view says of the log

  predicate IsAdd(e: Entry, n: NodeId) { e.body.op.AddPeer? && e.body.op.nid == n }
  predicate IsRevoke(e: Entry, n: NodeId) { e.body.op.RevokePeer? && e.body.op.nid == n }

  /** The columns of a peer's row that later entries may set again, and what they hold. */
  datatype Column = Permissions | Alias | Tags | Window
  datatype Cell = Texts(texts: seq<string>) | Name(name: Option<string>) | Times(start: Option<Time>, end: Option<Time>)

  function CellOf(row: Peer, col: Column): Cell {
    match col
    case Permissions => Texts(row.perms)
    case Alias => Name(row.alias)
    case Tags => Texts(row.tags)
    case Window => Times(row.maintStart, row.maintEnd)
  }

  /** What an entry puts into a column of n's row; an add fills every column. */
  function Puts(e: Entry, n: NodeId, col: Column): Option<Cell> {
    match e.body.op
    case AddPeer(nid, alias, perms, tags) =>
      if nid != n then None
      else if col == Permissions then Some(Texts(if perms.Some? then perms.value else ["monitor"]))
      else if col == Alias then Some(Name(alias))
      else if col == Tags then Some(Texts(if tags.Some? then tags.value else []))
      else Some(Times(None, None))
    case UpdatePermissions(nid, perms) =>
      if nid == n && col == Permissions then Some(Texts(if perms.Some? then perms.value else [])) else None
    case AddPeerAlias(nid, alias) => if nid == n && col == Alias then Some(Name(alias)) else None
    case SetTags(nid, tags) =>
      if nid == n && col == Tags then Some(Texts(if tags.Some? then tags.value else [])) else None
    case SetMaintenance(nid, start, end) => if nid == n && col == Window then Some(Times(start, end)) else None
    case ClearMaintenance(nid) => if nid == n && col == Window then Some(Times(None, None)) else None
    case _ => None
  }

  /** j is the last entry that puts something into the column. */
  ghost predicate LastPut(entries: seq<Entry>, n: NodeId, col: Column, j: int) {
    && 0 <= j < |entries| && Puts(entries[j], n, col).Some?
    && forall k :: j < k < |entries| ==> Puts(entries[k], n, col).None?
  }

  ghost predicate ColumnReads(entries: seq<Entry>, n: NodeId, col: Column, cell: Cell) {
    exists j :: LastPut(entries, n, col, j) && Puts(entries[j], n, col) == Some(cell)
  }

  ghost predicate LastAdd(entries: seq<Entry>, n: NodeId, i: int) {
    0 <= i < |entries| && IsAdd(entries[i], n) && forall k :: i < k < |entries| ==> !IsAdd(entries[k], n)
  }

  /** Entry k is the first after i that revokes n. */
  ghost predicate FirstRevoke(entries: seq<Entry>, n: NodeId, i: int, k: int) {
    0 <= i < k < |entries| && IsRevoke(entries[k], n) && forall m :: i < m < k ==> !IsRevoke(entries[m], n)
  }

  ghost predicate RevokedAfter(entries: seq<Entry>, n: NodeId, i: int) {
    exists k :: Max(0, i + 1) <= k < |entries| && IsRevoke(entries[k], n)
  }

  ghost predicate RevocationReads(entries: seq<Entry>, n: NodeId, i: int, at: Option<Time>) {
    if at.None? then !RevokedAfter(entries, n, i)
    else exists k :: FirstRevoke(entries, n, i, k) && entries[k].body.timestamp == at.value
  }

  /** The row of n as the log has it: added at its last add, revoked at the first revocation since, and every other
      column as the last entry that puts something there leaves it. */
  ghost predicate RowReads(entries: seq<Entry>, n: NodeId, row: Peer) {
    && (exists i :: LastAdd(entries, n, i) && row.addedAt == entries[i].body.timestamp
                    && RevocationReads(entries, n, i, row.revokedAt))
    && forall col :: ColumnReads(entries, n, col, CellOf(row, col))
  }

  ghost predicate EverAdded(entries: seq<Entry>, n: NodeId) {
    exists k :: 0 <= k < |entries| && IsAdd(entries[k], n)
  }

  /** The view has a row for n exactly if n was ever added, and the row is as the log has it. */
  ghost predicate ViewReads(entries: seq<Entry>, v: PeerView, n: NodeId) {
    (n in v <==> EverAdded(entries, n)) && (n in v ==> RowReads(entries, n, v[n]))
  }

  lemma ColumnSnoc(entries: seq<Entry>, e: Entry, n: NodeId, col: Column, cell: Cell)
    requires Puts(e, n, col) == Some(cell) || (Puts(e, n, col).None? && ColumnReads(entries, n, col, cell))
    ensures ColumnReads(entries + [e], n, col, cell)
  {
    var all := entries + [e];
    if Puts(e, n, col).Some? {
      assert LastPut(all, n, col, |entries|);
    } else {
      var j :| LastPut(entries, n, col, j) && Puts(entries[j], n, col) == Some(cell);
      assert LastPut(all, n, col, j) && all[j] == entries[j];
    }
  }

  /** What one entry does to one column of a row. */
  lemma AppliedCell(v: PeerView, e: Entry, n: NodeId, col: Column)
    requires n in v || IsAdd(e, n)
    ensures n in ApplyEntry(v, e)
    ensures var cell := CellOf(ApplyEntry(v, e)[n], col);
      Puts(e, n, col) == Some(cell) || (Puts(e, n, col).None? && n in v && CellOf(v[n], col) == cell)
  {
  }

  lemma RevocationSnoc(entries: seq<Entry>, e: Entry, n: NodeId, i: int, at: Option<Time>)
    requires 0 <= i < |entries| && RevocationReads(entries, n, i, at)
    ensures RevocationReads(entries + [e], n, i,
                            if at.None? && IsRevoke(e, n) then Some(e.body.timestamp) else at)
  {
    var all := entries + [e];
    if at.Some? {
      var k :| FirstRevoke(entries, n, i, k) && entries[k].body.timestamp == at.value;
      assert FirstRevoke(all, n, i, k) && all[k] == entries[k];
    } else if IsRevoke(e, n) {
      forall m | i < m < |entries| ensures !IsRevoke(all[m], n) { assert all[m] == entries[m]; }
      assert FirstRevoke(all, n, i, |entries|);
    } else {
      forall m | i < m < |all| ensures !IsRevoke(all[m], n) { assert m < |entries| ==> all[m] == entries[m]; }
    }
  }

  lemma AddedSnoc(entries: seq<Entry>, e: Entry, n: NodeId)
    ensures EverAdded(entries + [e], n) <==> EverAdded(entries, n) || IsAdd(e, n)
  {
    var all := entries + [e];
    if EverAdded(entries, n) {
      var k :| 0 <= k < |entries| && IsAdd(entries[k], n);
      assert IsAdd(all[k], n);
    }
    if IsAdd(e, n) {
      assert IsAdd(all[|entries|], n);
    }
  }

  /** The add and the revocation that a row goes by, after one more entry. */
  lemma TimesSnoc(entries: seq<Entry>, v: PeerView, n: NodeId, e: Entry)
    requires IsAdd(e, n) || (n in v && RowReads(entries, n, v[n]))
    ensures var all, row := entries + [e], ApplyEntry(v, e)[n];
      exists i :: LastAdd(all, n, i) && row.addedAt == all[i].body.timestamp
                  && RevocationReads(all, n, i, row.revokedAt)
  {
    var all := entries + [e];
    if IsAdd(e, n) {
      assert LastAdd(all, n, |entries|) && !RevokedAfter(all, n, |entries|);
    } else {
      var i :| LastAdd(entries, n, i) && v[n].addedAt == entries[i].body.timestamp
               && RevocationReads(entries, n, i, v[n].revokedAt);
      assert LastAdd(all, n, i) && all[i] == entries[i];
      RevocationSnoc(entries, e, n, i, v[n].revokedAt);
    }
  }

  lemma ViewReadsSnoc(entries: seq<Entry>, v: PeerView, n: NodeId, e: Entry)
    requires ViewReads(entries, v, n)
    ensures ViewReads(entries + [e], ApplyEntry(v, e), n)
  {
    AddedSnoc(entries, e, n);
    if n in v || IsAdd(e, n) {
      var after := ApplyEntry(v, e);
      TimesSnoc(entries, v, n, e);
      forall col ensures ColumnReads(entries + [e], n, col, CellOf(after[n], col)) {
        AppliedCell(v, e, n, col);
        ColumnSnoc(entries, e, n, col, CellOf(after[n], col));
      }
    } else {
      assert n !in ApplyEntry(v, e);
    }
  }

  /** The replayed view says of every peer what the log says. */
  lemma {:induction false} MaterializeReads(entries: seq<Entry>, n: NodeId)
    ensures ViewReads(entries, Materialize(entries), n)
    decreases |entries|
  {
    if entries != [] {
      var init, e := entries[..|entries| - 1], entries[|entries| - 1];
      MaterializeReads(init, n);
      ViewReadsSnoc(init, Materialize(init), n, e);
      assert entries == init + [e];
    }
  }

  lemma CellUnique(entries: seq<Entry>, n: NodeId, col: Column, a: Cell, b: Cell)
    requires ColumnReads(entries, n, col, a) && ColumnReads(entries, n, col, b)
    ensures a == b
  {
    var i :| LastPut(entries, n, col, i) && Puts(entries[i], n, col) == Some(a);
    var j :| LastPut(entries, n, col, j) && Puts(entries[j], n, col) == Some(b);
    assert i == j;
  }

  /** The log determines the whole row. */
  lemma RowUnique(entries: seq<Entry>, n: NodeId, a: Peer, b: Peer)
    requires RowReads(entries, n, a) && RowReads(entries, n, b)
    ensures a == b
  {
    forall col ensures CellOf(a, col) == CellOf(b, col) {
      CellUnique(entries, n, col, CellOf(a, col), CellOf(b, col));
    }
    assert CellOf(a, Permissions) == CellOf(b, Permissions) && CellOf(a, Alias) == CellOf(b, Alias);
    assert CellOf(a, Tags) == CellOf(b, Tags) && CellOf(a, Window) == CellOf(b, Window);
    var i :| LastAdd(entries, n, i) && a.addedAt == entries[i].body.timestamp
             && RevocationReads(entries, n, i, a.revokedAt);
    var j :| LastAdd(entries, n, j) && b.addedAt == entries[j].body.timestamp
             && RevocationReads(entries, n, j, b.revokedAt);
    assert i == j;
    RevocationUnique(entries, n, i, a.revokedAt, b.revokedAt);
  }

  lemma RevocationUnique(entries: seq<Entry>, n: NodeId, i: int, a: Option<Time>, b: Option<Time>)
    requires RevocationReads(entries, n, i, a) && RevocationReads(entries, n, i, b)
    ensures a == b
  {
    if a.Some? && b.Some? {
      var k :| FirstRevoke(entries, n, i, k) && entries[k].body.timestamp == a.value;
      var m :| FirstRevoke(entries, n, i, m) && entries[m].body.timestamp == b.value;
      assert k == m;
    }
  }

  /** Ops that describe no peer relationship; the cached view need not be rebuilt for them. */
  predicate IsEventOp(op: Op) {
    op.MonitorDown? || op.MonitorUp? || op.ShellOpen? || op.ShellClose? || op.Genesis? || op.SetVisibility?
  }

  // -------------------------------------------------------------- the log

  /** log.jsonl, shared by every process that opens it; the first append creates it. */
  class LogFile {
    var present: bool
    var text: string
    var mtime: nat

    constructor ()
      ensures !present && text == "" && mtime == 0
    {
      present, text, mtime := false, "", 0;
    }
  }

  /** The text can be read and its chain is good. */
  ghost predicate Loadable(c: Crypto, j: Codec<Entry>, checkSigs: bool, text: string) {
    Read(j, text).Some? && ChainOk(c, checkSigs, Read(j, text).value)
  }

  datatype AppendResult = Appended(entry: Entry) | NoSigningKey | UnknownType
  datatype ReloadResult = Unchanged | Reloaded | Broken(error: ChainError) | Unparsable | NoFile

  class TrustLog {
    const crypto: Crypto
    const json: Codec<Entry>
    const canSign: bool
    const checkSigs: bool
    const file: LogFile
    var entries: seq<Entry>
    var monitorTail: seq<Entry>
    var lastMtime: nat

    ghost predicate Valid()
      reads this
    {
      && SignaturesVerify(crypto) && JsonText(json)
      && ChainOk(crypto, checkSigs, entries)
      && monitorTail == MonitorTail(entries)
    }

    /** Memory and file hold the same log. */
    ghost predicate InStep()
      reads this, file
    {
      Complete(file.text) && Read(json, file.text) == Some(entries)
    }

    constructor (crypto: Crypto, json: Codec<Entry>, canSign: bool, checkSigs: bool, file: LogFile)
      requires SignaturesVerify(crypto) && JsonText(json)
      ensures Valid() && entries == [] && lastMtime == 0
      ensures this.crypto == crypto && this.json == json && this.canSign == canSign
      ensures this.checkSigs == checkSigs && this.file == file
    {
      this.crypto, this.json, this.canSign, this.checkSigs, this.file := crypto, json, canSign, checkSigs, file;
      entries, monitorTail, lastMtime := [], [], 0;
    }

    method SignedEntry(op: Op, now: Time) returns (entry: Entry)
      ensures entry == NextEntry(crypto, entries, op, now)
      ensures entry.body.op == op && entry.body.timestamp == now && entry.sig == crypto.sign(entry.body)
    {
      var seqno, prevHash := 0, ZERO_HASH;
      if entries != [] {
        seqno := entries[|entries| - 1].body.seqno + 1;
        prevHash := crypto.hash(entries[|entries| - 1]);
      }
      var body := Signed(seqno, op, now, prevHash);
      entry := Entry(body, crypto.sign(body));
    }

    /** `append`, called with the type, the data and the clock readings. */
    method Append(op: Op, now: Time, mtime: nat) returns (r: AppendResult)
      requires Valid()
      modifies this, file
      ensures Valid()
      ensures r.NoSigningKey? <==> !canSign
      ensures r.UnknownType? <==> canSign && op.Foreign?
      ensures r.Appended? ==> r.entry == NextEntry(crypto, old(entries), op, now)
      ensures r.Appended? ==> r.entry.body.op == op && r.entry.body.timestamp == now
      ensures r.Appended? ==> entries == old(entries) + [r.entry]
      ensures r.Appended? ==> file.text == old(file.text) + Written(json, r.entry)
      ensures r.Appended? ==> file.present && lastMtime == file.mtime == mtime
      ensures r.Appended? && old(InStep()) ==> (InStep() <==> OneLine(json.text(r.entry)))
      ensures r.Appended? && old(InStep()) && !InStep() ==> Read(json, file.text).None?
      ensures !r.Appended? ==> entries == old(entries)
      ensures !r.Appended? ==> file.text == old(file.text) && file.present == old(file.present)
    {
      if !canSign {
        return NoSigningKey;
      }
      if op.Foreign? {
        return UnknownType;
      }
      var entry := SignedEntry(op, now);
      AppendKeepsChain(crypto, checkSigs, entries, op, now);
      TailAppend(entries, entry);
      entries := entries + [entry];
      if IsMonitorEvent(op) {
        monitorTail := LastN(monitorTail + [entry], MONITOR_EVENT_TAIL);
      }
      WriteLine(entry, mtime);
      r := Appended(entry);
    }

    method WriteLine(entry: Entry, mtime: nat)
      requires JsonText(json)
      modifies this`lastMtime, file
      ensures file.present && file.text == old(file.text) + Written(json, entry) && lastMtime == file.mtime == mtime
      ensures old(Complete(file.text)) && Read(json, old(file.text)).Some? ==>
        && Complete(file.text)
        && Read(json, file.text) ==
             if OneLine(json.text(entry)) then Some(Read(json, old(file.text)).value + [entry]) else None
    {
      if Complete(file.text) {
        ReadAppended(json, file.text, entry);
      }
      file.present, file.text := true, file.text + (json.text(entry) + "\n");
      file.mtime := mtime;
      lastMtime := mtime;
    }

    /** `_read_verified_entries`. */
    method ReadVerifiedEntries() returns (r: ReloadResult, read: seq<Entry>)
      ensures r == Unparsable <==> Read(json, file.text).None?
      ensures r != Unparsable ==> Read(json, file.text) == Some(read)
      ensures r == Reloaded <==> r != Unparsable && ChainOk(crypto, checkSigs, read)
      ensures r == Unparsable || r == Reloaded || r.Broken?
    {
      read := [];
      var lines := Lines(file.text);
      for i := 0 to |lines|
        invariant Parsed(json, lines[..i]) == Some(read)
      {
        assert lines[..i + 1][..i] == lines[..i];
        var line := Strip(lines[i]);
        if line != "" {
          var entry := json.parse(line);
          if entry.None? {
            UnparsableLine(json, lines, i);
            return Unparsable, [];
          }
          read := read + [entry.value];
        }
      }
      assert lines[..|lines|] == lines;
      var error := VerifyChain(crypto, checkSigs, read);
      r := if error.Some? then Broken(error.value) else Reloaded;
    }

    /** `load`, and the changed branch of `reload_if_changed`: all or nothing. */
    method Load() returns (r: ReloadResult)
      requires Valid()
      modifies this
      ensures Valid()
      ensures r != Unchanged && (r == NoFile <==> !file.present)
      ensures r == Reloaded <==>
        file.present && Loadable(crypto, json, checkSigs, file.text)
      ensures r == Unparsable <==> file.present && Read(json, file.text).None?
      ensures r == Reloaded ==> Read(json, file.text) == Some(entries) && lastMtime == file.mtime
      ensures r != Reloaded ==> entries == old(entries) && lastMtime == old(lastMtime)
    {
      if !file.present {
        return NoFile;
      }
      var read: seq<Entry>;
      r, read := ReadVerifiedEntries();
      if r != Reloaded {
        return;
      }
      var tail := MonitorTailFrom(read);
      entries := read;
      monitorTail := tail;
      lastMtime := file.mtime;
    }

    method ReloadIfChanged() returns (r: ReloadResult)
      requires Valid()
      modifies this
      ensures Valid()
      ensures r == NoFile <==> !file.present
      ensures r == Unchanged <==> file.present && file.mtime <= old(lastMtime)
      ensures r == Reloaded <==>
        && file.present && file.mtime > old(lastMtime)
        && Loadable(crypto, json, checkSigs, file.text)
      ensures r == Reloaded ==> Read(json, file.text) == Some(entries)
      ensures r != Reloaded ==> entries == old(entries)
    {
      if !file.present {
        return NoFile;
      }
      if file.mtime <= lastMtime {
        return Unchanged;
      }
      r := Load();
    }

    /** `materialize_peers`. */
    method MaterializePeers() returns (peers: PeerView)
      ensures peers == Materialize(entries)
      ensures forall n :: ViewReads(entries, peers, n)
    {
      peers := map[];
      for i := 0 to |entries|
        invariant peers == Materialize(entries[..i])
      {
        MaterializeAppend(entries[..i], entries[i]);
        assert entries[..i + 1] == entries[..i] + [entries[i]];
        peers := ApplyEntry(peers, entries[i]);
      }
      assert entries[..|entries|] == entries;
      forall n { MaterializeReads(entries, n); }
    }

    /** `monitor_events`, of all peers or of one. */
    method RecentMonitorEvents(node: Option<NodeId>) returns (tail: seq<Entry>)
      requires Valid()
      ensures var recent := LastN(MonitorEvents(entries), MONITOR_EVENT_TAIL);
        tail == if node.None? then recent else Collect(recent, About(node.value))
      ensures forall e :: e in tail <==> e in LastN(MonitorEvents(entries), 256) && Concerns(e, node)
    {
      TailConcerns(entries, node);
      if node.None? {
        return monitorTail;
      }
      tail := [];
      for i := 0 to |monitorTail|
        invariant tail == Collect(monitorTail[..i], About(node.value))
      {
        var e := monitorTail[i];
        AboutNext(entries, i, node.value);
        if e.body.op.nid == node.value {
          tail := tail + [e];
        }
      }
      assert monitorTail[..|monitorTail|] == monitorTail;
    }
  }

  /** A monitor entry, about that peer if one is named. */
  ghost predicate Concerns(e: Entry, node: Option<NodeId>) {
    (e.body.op.MonitorDown? || e.body.op.MonitorUp?) && (node.None? || e.body.op.nid == node.value)
  }

  lemma {:induction false} AboutMembers(s: seq<Entry>, nid: NodeId)
    ensures forall e :: e in Collect(s, About(nid)) <==> e in s && Concerns(e, Some(nid))
    decreases |s|
  {
    if s != [] {
      AboutMembers(s[..|s| - 1], nid);
      assert s == s[..|s| - 1] + [s[|s| - 1]];
    }
  }

  /** The tail holds monitor entries only, and what is collected about a peer are those that name it. */
  lemma TailConcerns(entries: seq<Entry>, node: Option<NodeId>)
    ensures var tail := MonitorTail(entries);
      forall e :: e in (if node.None? then tail else Collect(tail, About(node.value))) <==>
        e in tail && Concerns(e, node)
  {
    var tail := MonitorTail(entries);
    if node.Some? {
      AboutMembers(tail, node.value);
    } else {
      forall e | e in tail ensures Concerns(e, node) {
        var i :| 0 <= i < |tail| && tail[i] == e;
        MonitorTailEvents(entries, i);
      }
    }
  }

  lemma AboutNext(entries: seq<Entry>, i: nat, nid: NodeId)
    requires i < |MonitorTail(entries)|
    ensures var tail := MonitorTail(entries);
      && IsMonitorEvent(tail[i].body.op)
      && Collect(tail[..i + 1], About(nid)) ==
           Collect(tail[..i], About(nid)) + (if tail[i].body.op.nid == nid then [tail[i]] else [])
  {
    var tail := MonitorTail(entries);
    MonitorTailEvents(entries, i);
    CollectSnoc(tail[..i], tail[i], About(nid));
    assert tail[..i + 1] == tail[..i] + [tail[i]];
    assert Collect(tail[..i], About(nid)) + [] == Collect(tail[..i], About(nid));
  }

  /** Only monitor entries are in the tail. */
  lemma MonitorTailEvents(entries: seq<Entry>, i: nat)
    requires i < |MonitorTail(entries)|
    ensures IsMonitorEvent(MonitorTail(entries)[i].body.op)
  {
    var events := MonitorEvents(entries);
    var j := Collected(entries, MonitorOnly(), |events| - |MonitorTail(entries)| + i);
  }

  // ------------------------------------------------------- runs of appends

  datatype Call = Call(op: Op, now: Time)

  /** What one process writes by a run of appends of known ops. */
  ghost function AppendAll(c: Crypto, entries: seq<Entry>, calls: seq<Call>): seq<Entry>
    decreases calls
  {
    if calls == [] then entries
    else if calls[0].op.Foreign? then AppendAll(c, entries, calls[1..])
    else AppendAll(c, entries + [NextEntry(c, entries, calls[0].op, calls[0].now)], calls[1..])
  }

  function TailAfter(tail: seq<Entry>, e: Entry): seq<Entry> {
    if IsMonitorEvent(e.body.op) then LastN(tail + [e], MONITOR_EVENT_TAIL) else tail
  }

  /** The tail as `append` keeps it, one event at a time. */
  ghost function IncrementalTail(c: Crypto, entries: seq<Entry>, tail: seq<Entry>, calls: seq<Call>): seq<Entry>
    decreases calls
  {
    if calls == [] then tail
    else if calls[0].op.Foreign? then IncrementalTail(c, entries, tail, calls[1..])
    else
      var e := NextEntry(c, entries, calls[0].op, calls[0].now);
      IncrementalTail(c, entries + [e], TailAfter(tail, e), calls[1..])
  }

  lemma {:induction false} AppendAllKeeps(c: Crypto, checkSigs: bool, entries: seq<Entry>, calls: seq<Call>)
    requires SignaturesVerify(c) && ChainOk(c, checkSigs, entries)
    ensures ChainOk(c, checkSigs, AppendAll(c, entries, calls))
    ensures IncrementalTail(c, entries, MonitorTail(entries), calls) == MonitorTail(AppendAll(c, entries, calls))
    decreases calls
  {
    if calls != [] {
      if calls[0].op.Foreign? {
        AppendAllKeeps(c, checkSigs, entries, calls[1..]);
      } else {
        var e := NextEntry(c, entries, calls[0].op, calls[0].now);
        AppendKeepsChain(c, checkSigs, entries, calls[0].op, calls[0].now);
        TailAppend(entries, e);
        AppendAllKeeps(c, checkSigs, entries + [e], calls[1..]);
      }
    }
  }

  /** Exactly when the file that a run of appends leaves can be loaded again: when no written text holds one of the
      three line breaks that JSON does not escape. Otherwise it cannot, whatever is appended later. */
  lemma LoadsAgainIff(c: Crypto, j: Codec<Entry>, checkSigs: bool, calls: seq<Call>, more: string)
    requires SignaturesVerify(c) && JsonText(j)
    ensures var entries := AppendAll(c, [], calls);
      && (Loadable(c, j, checkSigs, Text(j, entries)) <==> NoneBroken(j, entries))
      && (NoneBroken(j, entries) ==> Read(j, Text(j, entries)) == Some(entries))
      && (!NoneBroken(j, entries) ==> !Loadable(c, j, checkSigs, Text(j, entries) + more))
  {
    var entries := AppendAll(c, [], calls);
    AppendAllKeeps(c, checkSigs, [], calls);
    TextReadsBackIff(j, entries);
    forall e | e in entries ensures OneLine(j.text(e)) <==> Unbroken(j.text(e)) {
      BreaksLeft(j, e);
    }
    if Read(j, Text(j, entries)).None? {
      UnreadableForGood(j, Text(j, entries), more);
    }
  }

  /** A fresh process that loads the file after any run of appends accepts it exactly when every written text is
      one line. Then it holds what the writer holds: the same entries, hence the same peer view, and the writer's
      incremental monitor tail. */
  method FreshLoadAgrees(c: Crypto, j: Codec<Entry>, checkSigs: bool, file: LogFile, ghost calls: seq<Call>)
    returns (reader: TrustLog, peers: PeerView, r: ReloadResult)
    requires SignaturesVerify(c) && JsonText(j)
    requires file.text == Text(j, AppendAll(c, [], calls)) && (!file.present ==> AppendAll(c, [], calls) == [])
    ensures var written := AppendAll(c, [], calls);
      && (r == Unparsable <==> !AllOneLine(j, written))
      && (r != Unparsable ==> reader.entries == written && peers == Materialize(written))
    ensures r == Reloaded || r == Unparsable || (r == NoFile && !file.present)
    ensures r != Unparsable ==> reader.Valid() && reader.monitorTail == IncrementalTail(c, [], [], calls)
  {
    AppendAllKeeps(c, checkSigs, [], calls);
    TextReadsBackIff(j, AppendAll(c, [], calls));
    reader := new TrustLog(c, j, true, checkSigs, file);
    r := reader.Load();
    peers := reader.MaterializePeers();
  }
}
