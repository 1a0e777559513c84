/** What the COMPOUNDs mean: a server that runs a list of operations with a current and a saved filehandle
    (section 2.3.1 and section 16 of RFC 7530), next to the one change of the directory tree that each call of
    the facade is for. */
module Namespace {
  import opened Wire
  import opened Bitmap
  import opened Ops
  import opened Compounds
  import opened Client41
  import opened Attributes
  import opened FileTrees
  import opened Objects

  /* ----- a file system ----- */

  /** The object that a handle of the facade names; the empty handle is the root. */
  function Resolve(fs: Fs, fh: bytes): Answer<bytes> {
    if fh == [] then Good(fs.root) else if fh in fs.nodes then Good(fh) else Bad(NFS4ERR_STALE)
  }

  function EntriesOf(fs: Fs, d: bytes): Answer<map<bytes, bytes>> {
    if d in fs.nodes && fs.nodes[d].Dir? then Good(fs.nodes[d].entries) else Bad(NFS4ERR_NOTDIR)
  }

  function SetEntries(fs: Fs, d: bytes, entries: map<bytes, bytes>): Fs
    requires IsDir(fs, d)
  {
    fs.(nodes := fs.nodes[d := fs.nodes[d].(entries := entries)])
  }

  function CheckName(name: bytes): Answer<()> {
    if name == [] then Bad(NFS4ERR_INVAL) else if IsDots(name) then Bad(NFS4ERR_BADNAME) else Good(())
  }

  function LookupAt(fs: Fs, d: bytes, name: bytes): Answer<bytes> {
    if d in fs.nodes && fs.nodes[d].Link? then Bad(NFS4ERR_SYMLINK)
    else
      var es :- EntriesOf(fs, d);
      var _ :- CheckName(name);
      if name in es then Good(es[name]) else Bad(NFS4ERR_NOENT)
  }

  function AddAt(fs: Fs, d: bytes, name: bytes, h: bytes, node: Node): Answer<Fs> {
    var es :- EntriesOf(fs, d);
    var _ :- CheckName(name);
    if name in es then Bad(NFS4ERR_EXIST)
    else Good(fs.(nodes := SetEntries(fs, d, es[name := h]).nodes[h := node]))
  }

  function RemoveAt(fs: Fs, d: bytes, name: bytes): Answer<Fs> {
    var es :- EntriesOf(fs, d);
    var _ :- CheckName(name);
    if name !in es then Bad(NFS4ERR_NOENT)
    else if Occupied(fs, es[name]) then Bad(NFS4ERR_NOTEMPTY)
    else Good(fs.(nodes := (fs.nodes - {es[name]})[d := fs.nodes[d].(entries := es - {name})]))
  }

  /** An object is not moved below itself.  A target that exists is replaced if both are directories, and it is
      empty, or neither is. */
  ghost function RenameAt(fs: Fs, s: bytes, sn: bytes, d: bytes, dn: bytes): Answer<Fs> {
    var es :- EntriesOf(fs, s);
    var ed :- EntriesOf(fs, d);
    var _ :- CheckName(sn);
    var _ :- CheckName(dn);
    if sn !in es then Bad(NFS4ERR_NOENT)
    else if dn in ed && ed[dn] == es[sn] then Good(fs)
    else if Below(fs, es[sn], d) then Bad(NFS4ERR_INVAL)
    else if dn in ed && (IsDir(fs, ed[dn]) != IsDir(fs, es[sn]) || Occupied(fs, ed[dn])) then Bad(NFS4ERR_EXIST)
    else Good(Moved(fs, s, sn, d, dn))
  }

  function Moved(fs: Fs, s: bytes, sn: bytes, d: bytes, dn: bytes): Fs
    requires sn in Names(fs, s) && IsDir(fs, d)
    requires dn in Names(fs, d) ==> !Occupied(fs, fs.nodes[d].entries[dn])
  {
    var es, ed := fs.nodes[s].entries, fs.nodes[d].entries;
    var kept := if dn in ed then fs.(nodes := fs.nodes - {ed[dn]}) else fs;
    var without := SetEntries(kept, s, es - {sn});
    SetEntries(without, d, without.nodes[d].entries[dn := es[sn]])
  }

  /** OPEN: a file is found or, if asked for, made with the attributes to set, and its state id stands for what was
      asked for.  Of the attributes for a file that is there only the size 0 matters. */
  function OpenAt(fs: Fs, d: bytes, name: bytes, access: u32, clientid: u64, owner: bytes, create: Option<Sattr4>,
                  spare: Spare): Answer<(Fs, bytes)> {
    var es :- EntriesOf(fs, d);
    var _ :- CheckName(name);
    var _ :- RenewAt(fs, clientid);
    if name !in es then
      if create.None? then Bad(NFS4ERR_NOENT)
      else
        var n :- Changed(File([], {}, spare.attrs), create.value);
        var fs' :- AddAt(fs, d, name, spare.handle, n);
        Good((WithOpen(fs', spare, OpenFile(spare.handle, access, clientid, owner, !spare.confirm)), spare.handle))
    else
      var h := es[name];
      var n :- NodeAt(fs, h);
      if n.Dir? then Bad(NFS4ERR_ISDIR)
      else if n.Link? then Bad(NFS4ERR_SYMLINK)
      else
        var cut := create.Some? && create.value.size == Some(0);
        var fs' := if cut then fs.(nodes := fs.nodes[h := File([], {}, n.attrs)]) else fs;
        Good((WithOpen(fs', spare, OpenFile(h, access, clientid, owner, !spare.confirm)), h))
  }

  function WithOpen(fs: Fs, spare: Spare, o: OpenFile): Fs { fs.(opens := fs.opens[spare.stateid := o]) }

  function MakeAt(fs: Fs, d: bytes, name: bytes, n: Node, attrs: Sattr4, spare: Spare): Answer<Fs> {
    var n' :- Changed(n, attrs);
    AddAt(fs, d, name, spare.handle, n')
  }

  /* ----- the machine ----- */

  /** What an operation tells the client, apart from filehandles. */
  datatype Said =
    | Silent
    | Opened(stateid: Stateid4, confirm: bool)
    | Confirmed(stateid: Stateid4)
    | Values(attrs: Attrs)
    | Rights(supported: u32, granted: u32)
    | Contents(data: bytes, eof: bool)
    | Count(n: u32, stable: u32)
    | Flushed
    | Target(t: bytes)

  /** The file system, the two filehandles, what GETFH returned last and what was said last. */
  datatype Machine = Machine(fs: Fs, current: Option<bytes>, saved: Option<bytes>, got: Option<bytes>, said: Said)

  function Held(h: Option<bytes>): Answer<bytes> { if h.Some? then Good(h.value) else Bad(NFS4ERR_NOFILEHANDLE) }

  /** One operation.  Those that start clients and sessions are not of concern here, see `Setup`. */
  ghost function Step(m: Machine, op: Op, spare: Spare): Answer<Machine> {
    match op
    case PutRootFh => Good(m.(current := Some(m.fs.root)))
    case PutFh(fh) =>
      if fh == [] then Bad(NFS4ERR_BADHANDLE)
      else if fh in m.fs.nodes then Good(m.(current := Some(fh)))
      else Bad(NFS4ERR_STALE)
    case GetFh => var cur :- Held(m.current); Good(m.(got := Some(cur)))
    case SaveFh => var cur :- Held(m.current); Good(m.(saved := Some(cur)))
    case Lookup(name) =>
      var cur :- Held(m.current);
      var h :- LookupAt(m.fs, cur, name);
      Good(m.(current := Some(h)))
    case CreateDir(name, attrs) =>
      var cur :- Held(m.current);
      var fs :- MakeAt(m.fs, cur, name, Dir(map[], spare.attrs), attrs, spare);
      Good(m.(fs := fs, current := Some(spare.handle)))
    case CreateSymlink(target, name, attrs) =>
      var cur :- Held(m.current);
      var fs :- MakeAt(m.fs, cur, name, Link(target, spare.attrs), attrs, spare);
      Good(m.(fs := fs, current := Some(spare.handle)))
    case Open(_, access, clientid, owner, create, name) =>
      var cur :- Held(m.current);
      var found :- OpenAt(m.fs, cur, name, access, clientid, owner, create, spare);
      Good(m.(fs := found.0, current := Some(found.1), said := Opened(spare.stateid, spare.confirm)))
    case Remove(name) =>
      var cur :- Held(m.current);
      var fs :- RemoveAt(m.fs, cur, name);
      Good(m.(fs := fs))
    case Rename(oldName, newName) =>
      var src :- Held(m.saved);
      var dst :- Held(m.current);
      var fs :- RenameAt(m.fs, src, oldName, dst, newName);
      Good(m.(fs := fs))
    case ReadDir(_, _, _, _, _) =>
      var cur :- Held(m.current);
      if IsDir(m.fs, cur) then Good(m) else Bad(NFS4ERR_NOTDIR)
    case GetAttr(request) =>
      var cur :- Held(m.current);
      var attrs :- ShowAt(m.fs, cur, request);
      Good(m.(said := Values(attrs)))
    case Access(mask) =>
      var cur :- Held(m.current);
      var _ :- NodeAt(m.fs, cur);
      Good(m.(said := Rights(BitAnd(spare.supported, mask), BitAnd(spare.rights, mask))))
    case OpenConfirm(stateid, _) =>
      var cur :- Held(m.current);
      var fs :- ConfirmAt(m.fs, cur, stateid, spare.stateid);
      Good(m.(fs := fs, said := Confirmed(spare.stateid)))
    case Close(_, stateid) =>
      var cur :- Held(m.current);
      var fs :- CloseAt(m.fs, cur, stateid);
      Good(m.(fs := fs))
    case Read(stateid, offset, count) =>
      var cur :- Held(m.current);
      var r :- ReadAt(m.fs, cur, stateid, offset, count, spare.most);
      Good(m.(said := Contents(r.0, r.1)))
    case Write(stateid, offset, stable, data) =>
      var cur :- Held(m.current);
      var r :- WriteAt(m.fs, cur, stateid, offset, stable, data, spare.most);
      Good(m.(fs := r.0, said := Count(r.1, stable)))
    case Commit(offset, count) =>
      var cur :- Held(m.current);
      var fs :- FlushAt(m.fs, cur, offset, count);
      Good(m.(fs := fs, said := Flushed))
    case ReadLink =>
      var cur :- Held(m.current);
      var t :- TargetAt(m.fs, cur);
      Good(m.(said := Target(t)))
    case SetAttr(stateid, attrs) =>
      var cur :- Held(m.current);
      var fs :- ChangeAt(m.fs, cur, stateid, attrs);
      Good(m.(fs := fs))
    case Renew(clientid) =>
      var _ :- RenewAt(m.fs, clientid);
      Good(m)
    case _ => Good(m)
  }

  datatype Ran = Ran(m: Machine, status: u32)

  /** Operations run in order up to the first that fails; what was done before it stays done. */
  ghost function Run(m: Machine, ops: seq<Op>, spare: Spare): Ran
    decreases |ops|
  {
    if ops == [] then Ran(m, 0)
    else
      var a := Step(m, ops[0], spare);
      if a.Bad? then Ran(m, a.code) else Run(a.value, ops[1..], spare)
  }

  function Start(fs: Fs): Machine { Machine(fs, None, None, None, Silent) }

  /* ----- the calls of the facade ----- */

  datatype FsCall =
    | Find(dir: bytes, name: bytes)
    | MakeDir(dir: bytes, name: bytes, attrs: Sattr4)
    | MakeLink(dir: bytes, name: bytes, target: bytes, attrs: Sattr4)
    | OpenNamed(dir: bytes, seqid: u32, access: u32, clientid: u64, owner: bytes, create: bool, name: bytes)
    | Unlink(dir: bytes, name: bytes)
    | Move(srcDir: bytes, srcName: bytes, dstDir: bytes, dstName: bytes)
    | Inspect(fh: bytes)
    | MayDo(fh: bytes, mask: u32)
    | ConfirmFile(fh: bytes, stateid: Stateid4, seqid: u32)
    | CloseFile(fh: bytes, seqid: u32, stateid: Stateid4)
    | ReadFile(fh: bytes, stateid: Stateid4, offset: u64, count: u32)
    | WriteFile(fh: bytes, stateid: Stateid4, offset: u64, stable: u32, data: bytes)
    | FlushFile(fh: bytes, offset: u64, count: u32)
    | ReadTarget(fh: bytes)
    | Change(fh: bytes, attrs: Sattr4)
    | KeepAlive(clientid: u64)

  function OpsOf(c: FsCall): seq<Op> {
    match c
    case Find(dir, name) => LookupOps(dir, name)
    case MakeDir(dir, name, attrs) => MkdirOps(dir, name, attrs)
    case MakeLink(dir, name, target, attrs) => SymlinkOps(dir, name, target, attrs)
    case OpenNamed(dir, seqid, access, clientid, owner, create, name) =>
      OpenOps(dir, seqid, access, clientid, owner, create, name)
    case Unlink(dir, name) => RemoveOps(dir, name)
    case Move(srcDir, srcName, dstDir, dstName) => RenameOps(srcDir, srcName, dstDir, dstName)
    case Inspect(fh) => GetAttrOps(fh)
    case MayDo(fh, mask) => AccessOps(fh, mask)
    case ConfirmFile(fh, stateid, seqid) => ConfirmOps(fh, stateid, seqid)
    case CloseFile(fh, seqid, stateid) => CloseOps(fh, seqid, stateid)
    case ReadFile(fh, stateid, offset, count) => ReadOps(fh, stateid, offset, count)
    case WriteFile(fh, stateid, offset, stable, data) => WriteOps(fh, stateid, offset, stable, data)
    case FlushFile(fh, offset, count) => CommitOps(fh, offset, count)
    case ReadTarget(fh) => ReadLinkOps(fh)
    case Change(fh, attrs) => SetAttrOps(fh, attrs)
    case KeepAlive(clientid) => RenewOps(clientid)
  }

  function FoundAt(fs: Fs, dir: bytes, name: bytes): Answer<bytes> {
    var d :- Resolve(fs, dir);
    LookupAt(fs, d, name)
  }

  /** The tree after a call, the handle it returns, if any, and what it tells. */
  datatype Done = Done(fs: Fs, handle: Option<bytes>, said: Said)

  /** The ids of the attributes that an inspection shows. */
  function ShownIds(): set<nat> { {1, 3, 4, 20, 33, 35, 36, 37, 47, 52, 53} }

  function Chosen(m: Attrs, ids: set<nat>): Attrs { map id | id in m && id in ids :: m[id] }

  /** What a call is for, or the error it reports. */
  ghost function Wanted(fs: Fs, c: FsCall, spare: Spare): Answer<Done> {
    match c
    case Find(dir, name) =>
      var h :- FoundAt(fs, dir, name);
      Good(Done(fs, Some(h), Silent))
    case MakeDir(dir, name, attrs) =>
      var d :- Resolve(fs, dir);
      var fs' :- MakeAt(fs, d, name, Dir(map[], spare.attrs), attrs, spare);
      Good(Done(fs', Some(spare.handle), Silent))
    case MakeLink(dir, name, target, attrs) =>
      var d :- Resolve(fs, dir);
      var fs' :- MakeAt(fs, d, name, Link(target, spare.attrs), attrs, spare);
      Good(Done(fs', Some(spare.handle), Silent))
    case OpenNamed(dir, _, access, clientid, owner, create, name) =>
      var d :- Resolve(fs, dir);
      var how := if create then Some(Sattr4(None, None, None, None, None, None)) else None;
      var found :- OpenAt(fs, d, name, access, clientid, owner, how, spare);
      Good(Done(found.0, Some(found.1), Opened(spare.stateid, spare.confirm)))
    case Unlink(dir, name) =>
      var d :- Resolve(fs, dir);
      var fs' :- RemoveAt(fs, d, name);
      Good(Done(fs', None, Silent))
    case Move(srcDir, srcName, dstDir, dstName) =>
      var s :- Resolve(fs, srcDir);
      var d :- Resolve(fs, dstDir);
      var fs' :- RenameAt(fs, s, srcName, d, dstName);
      Good(Done(fs', None, Silent))
    case Inspect(fh) =>
      var h :- Resolve(fs, fh);
      var n :- NodeAt(fs, h);
      Good(Done(fs, None, Values(Chosen(AttrsOf(n), ShownIds()))))
    case MayDo(fh, mask) =>
      var h :- Resolve(fs, fh);
      var _ :- NodeAt(fs, h);
      Good(Done(fs, None, Rights(BitAnd(spare.supported, mask), BitAnd(spare.rights, mask))))
    case ConfirmFile(fh, stateid, _) =>
      var h :- Resolve(fs, fh);
      var fs' :- ConfirmAt(fs, h, stateid, spare.stateid);
      Good(Done(fs', None, Confirmed(spare.stateid)))
    case CloseFile(fh, _, stateid) =>
      var h :- Resolve(fs, fh);
      var fs' :- CloseAt(fs, h, stateid);
      Good(Done(fs', None, Silent))
    case ReadFile(fh, stateid, offset, count) =>
      var h :- Resolve(fs, fh);
      var r :- ReadAt(fs, h, stateid, offset, count, spare.most);
      Good(Done(fs, None, Contents(r.0, r.1)))
    case WriteFile(fh, stateid, offset, stable, data) =>
      var h :- Resolve(fs, fh);
      var r :- WriteAt(fs, h, stateid, offset, stable, data, spare.most);
      Good(Done(r.0, None, Count(r.1, stable)))
    case FlushFile(fh, offset, count) =>
      var h :- Resolve(fs, fh);
      var fs' :- FlushAt(fs, h, offset, count);
      Good(Done(fs', None, Flushed))
    case ReadTarget(fh) =>
      var h :- Resolve(fs, fh);
      var t :- TargetAt(fs, h);
      Good(Done(fs, None, Target(t)))
    case Change(fh, attrs) =>
      var h :- Resolve(fs, fh);
      var fs' :- ChangeAt(fs, h, NoState(), attrs);
      Good(Done(fs', None, Silent))
    case KeepAlive(clientid) =>
      var _ :- RenewAt(fs, clientid);
      Good(Done(fs, None, Silent))
  }

  /** A run ended as wanted: the same tree, handle, news and first error, and a failed call has changed nothing. */
  predicate EndsAs(r: Ran, fs: Fs, wanted: Answer<Done>) {
    match wanted
    case Good(w) => r.status == 0 && r.m.fs == w.fs && r.m.got == w.handle && r.m.said == w.said
    case Bad(code) => r.status == code && r.m.fs == fs && r.m.got == None && r.m.said == Silent
  }

  lemma RunFront(m: Machine, op: Op, ops: seq<Op>, spare: Spare)
    ensures var a := Step(m, op, spare);
            Run(m, [op] + ops, spare) == if a.Bad? then Ran(m, a.code) else Run(a.value, ops, spare)
  {
    hide Step;
    assert ([op] + ops)[1..] == ops;
  }

  /** PUTFH, or PUTROOTFH for the root, selects what the handle names. */
  lemma FhOpSelects(m: Machine, fh: bytes, spare: Spare)
    ensures var a := Resolve(m.fs, fh);
            Step(m, FhOp(fh), spare) == if a.Bad? then Bad(a.code) else Good(m.(current := Some(a.value)))
  {
  }

  /** For every call, with any handles: running its operations one by one is the one change it is for. */
  lemma RunsAsWanted(fs: Fs, c: FsCall, spare: Spare)
    ensures EndsAs(Run(Start(fs), OpsOf(c), spare), fs, Wanted(fs, c, spare))
  {
    match c {
      case Find(dir, name) => FindRuns(fs, dir, name, spare);
      case MakeDir(_, _, _) => MakeRuns(fs, c, spare);
      case MakeLink(_, _, _, _) => MakeRuns(fs, c, spare);
      case OpenNamed(_, _, _, _, _, _, _) => OpenRuns(fs, c, spare);
      case Unlink(_, _) => UnlinkRuns(fs, c, spare);
      case Move(_, _, _, _) => MoveRuns(fs, c, spare);
      case Inspect(fh) => InspectRuns(fs, fh, spare);
      case KeepAlive(clientid) => KeepAliveRuns(fs, clientid, spare);
      case ConfirmFile(_, _, _) => StateRuns(fs, c, spare);
      case CloseFile(_, _, _) => StateRuns(fs, c, spare);
      case Change(_, _) => StateRuns(fs, c, spare);
      case _ => ObjectRuns(fs, c, spare);
    }
  }

  lemma FindRuns(fs: Fs, dir: bytes, name: bytes, spare: Spare)
    ensures EndsAs(Run(Start(fs), OpsOf(Find(dir, name)), spare), fs, Wanted(fs, Find(dir, name), spare))
  {
    hide LookupAt, Resolve, FhOp, Run;
    RunThree(Start(fs), dir, Lookup(name), GetFh, spare);
  }

  lemma MakeRuns(fs: Fs, c: FsCall, spare: Spare)
    requires c.MakeDir? || c.MakeLink?
    ensures EndsAs(Run(Start(fs), OpsOf(c), spare), fs, Wanted(fs, c, spare))
  {
    hide MakeAt, Resolve, FhOp, Run;
    var op := if c.MakeDir? then CreateDir(c.name, c.attrs) else CreateSymlink(c.target, c.name, c.attrs);
    RunThree(Start(fs), c.dir, op, GetFh, spare);
  }

  lemma OpenRuns(fs: Fs, c: FsCall, spare: Spare)
    requires c.OpenNamed?
    ensures EndsAs(Run(Start(fs), OpsOf(c), spare), fs, Wanted(fs, c, spare))
  {
    hide OpenAt, Resolve, FhOp, Run;
    RunThree(Start(fs), c.dir, OpsOf(c)[1], GetFh, spare);
  }

  lemma UnlinkRuns(fs: Fs, c: FsCall, spare: Spare)
    requires c.Unlink?
    ensures EndsAs(Run(Start(fs), OpsOf(c), spare), fs, Wanted(fs, c, spare))
  {
    hide RemoveAt, Resolve, FhOp, Run;
    RunTwo(Start(fs), c.dir, Remove(c.name), spare);
  }

  lemma MoveRuns(fs: Fs, c: FsCall, spare: Spare)
    requires c.Move?
    ensures EndsAs(Run(Start(fs), OpsOf(c), spare), fs, Wanted(fs, c, spare))
  {
    hide RenameAt, Resolve, FhOp, Run;
    RunFour(Start(fs), c.srcDir, c.dstDir, Rename(c.srcName, c.dstName), spare);
  }

  lemma InspectRuns(fs: Fs, fh: bytes, spare: Spare)
    ensures EndsAs(Run(Start(fs), OpsOf(Inspect(fh)), spare), fs, Wanted(fs, Inspect(fh), spare))
  {
    hide Resolve, FhOp, Run, AttrsOf, BitmapOf, Requested, Chosen;
    RunTwo(Start(fs), fh, GetAttr(BitmapOf(GETATTR_IDS)), spare);
    if Resolve(fs, fh).Good? && NodeAt(fs, Resolve(fs, fh).value).Good? {
      RequestedAreShown(AttrsOf(NodeAt(fs, Resolve(fs, fh).value).value));
    }
  }

  /** The client asks for the attributes that are shown, and no others. */
  lemma RequestedAreShown(m: Attrs)
    ensures Requested(m, BitmapOf(GETATTR_IDS)) == Chosen(m, ShownIds())
  {
    hide BitmapOf, Test, ShownIds;
    forall id: nat ensures (id < TWO_32 && Test(BitmapOf(GETATTR_IDS), id)) <==> id in ShownIds() {
      IdsAsked(id);
      if id < TWO_32 { assert Test(BitmapOf(GETATTR_IDS), id) <==> id in GETATTR_IDS; }
    }
  }

  lemma IdsAsked(id: nat)
    ensures id in ShownIds() <==> id < TWO_32 && id in GETATTR_IDS
  {
  }

  lemma StateRuns(fs: Fs, c: FsCall, spare: Spare)
    requires c.ConfirmFile? || c.CloseFile? || c.Change?
    ensures EndsAs(Run(Start(fs), OpsOf(c), spare), fs, Wanted(fs, c, spare))
  {
    hide ConfirmAt, CloseAt, ChangeAt, Resolve, FhOp, Run;
    RunTwo(Start(fs), c.fh, OpsOf(c)[1], spare);
  }

  lemma ObjectRuns(fs: Fs, c: FsCall, spare: Spare)
    requires c.MayDo? || c.ReadFile? || c.WriteFile? || c.FlushFile? || c.ReadTarget?
    ensures EndsAs(Run(Start(fs), OpsOf(c), spare), fs, Wanted(fs, c, spare))
  {
    hide ReadAt, WriteAt, FlushAt, TargetAt, NodeAt, BitAnd, Resolve, FhOp, Run;
    RunTwo(Start(fs), c.fh, OpsOf(c)[1], spare);
  }

  lemma KeepAliveRuns(fs: Fs, clientid: u64, spare: Spare)
    ensures EndsAs(Run(Start(fs), OpsOf(KeepAlive(clientid)), spare), fs, Wanted(fs, KeepAlive(clientid), spare))
  {
    assert RenewOps(clientid) == [Renew(clientid)] + [];
    RunFront(Start(fs), Renew(clientid), [], spare);
  }

  ghost function Then(r: Ran, op: Op, spare: Spare): Ran {
    if r.status != 0 then r
    else var a := Step(r.m, op, spare); if a.Bad? then Ran(r.m, a.code) else Ran(a.value, 0)
  }

  function Select(m: Machine, fh: bytes): Ran {
    var a := Resolve(m.fs, fh);
    if a.Bad? then Ran(m, a.code) else Ran(m.(current := Some(a.value)), 0)
  }

  lemma RunTwo(m: Machine, fh: bytes, op: Op, spare: Spare)
    ensures Run(m, [FhOp(fh), op], spare) == Then(Select(m, fh), op, spare)
  {
    hide Step;
    FhOpSelects(m, fh, spare);
    assert [FhOp(fh), op] == [FhOp(fh)] + [op];
    RunFront(m, FhOp(fh), [op], spare);
  }

  lemma RunThree(m: Machine, fh: bytes, op: Op, next: Op, spare: Spare)
    ensures Run(m, [FhOp(fh), op, next], spare) == Then(Then(Select(m, fh), op, spare), next, spare)
  {
    hide Step;
    FhOpSelects(m, fh, spare);
    assert [FhOp(fh), op, next] == [FhOp(fh)] + ([op] + [next]);
    RunFront(m, FhOp(fh), [op] + [next], spare);
    if Resolve(m.fs, fh).Good? { RunFront(Select(m, fh).m, op, [next], spare); }
  }

  /** Before its last operation, a RENAME has the source directory saved and the target directory current. */
  lemma RunFour(m: Machine, src: bytes, dst: bytes, op: Op, spare: Spare)
    ensures var s, d := Resolve(m.fs, src), Resolve(m.fs, dst);
            var r := Run(m, [FhOp(src), SaveFh, FhOp(dst), op], spare);
            if s.Bad? then r == Ran(m, s.code)
            else if d.Bad? then r == Ran(m.(current := Some(s.value), saved := Some(s.value)), d.code)
            else r == Then(Ran(m.(current := Some(d.value), saved := Some(s.value)), 0), op, spare)
  {
    assert [FhOp(src), SaveFh, FhOp(dst), op] == [FhOp(src)] + ([SaveFh] + [FhOp(dst), op]);
    RunFront(m, FhOp(src), [SaveFh] + [FhOp(dst), op], spare);
    FhOpSelects(m, src, spare);
    if Resolve(m.fs, src).Good? {
      var m1 := m.(current := Some(Resolve(m.fs, src).value));
      RunFront(m1, SaveFh, [FhOp(dst), op], spare);
      var m2 := m1.(saved := m1.current);
      RunTwo(m2, dst, op, spare);
    }
  }

  /** In a session, SEQUENCE goes first and changes nothing. */
  lemma SequenceFirst(fs: Fs, session: sessionid4, n: nat, w: Work, spare: Spare)
    ensures Run(Start(fs), InSession(session, n, w).ops, spare) == Run(Start(fs), w.ops, spare)
  {
    RunFront(Start(fs), InSession(session, n, w).ops[0], w.ops, spare);
  }

  /* ----- what the changes do to the tree ----- */

  /** Nothing but the entries named by `Child` tells two trees apart: objects stay what they are, with their
      attributes and contents. */
  ghost predicate SameKinds(fs: Fs, fs': Fs) {
    && fs'.root == fs.root && fs'.opens == fs.opens && fs'.clients == fs.clients && fs'.boot == fs.boot
    && forall h | h in fs.nodes && h in fs'.nodes ::
         && IsDir(fs', h) == IsDir(fs, h)
         && (fs'.nodes[h] == fs.nodes[h] || (IsDir(fs, h) && fs'.nodes[h].attrs == fs.nodes[h].attrs))
  }

  /** The same tree, whatever the attributes and contents of its objects. */
  ghost predicate SameShape(fs: Fs, fs': Fs) {
    && fs'.root == fs.root && fs'.nodes.Keys == fs.nodes.Keys
    && (forall h :: IsDir(fs', h) == IsDir(fs, h) && Names(fs', h) == Names(fs, h))
    && (forall d, n :: Child(fs', d, n) == Child(fs, d, n))
  }

  lemma SameShapeSound(fs: Fs, fs': Fs)
    requires Sound(fs) && SameShape(fs, fs')
    ensures Sound(fs')
  {
    hide Child, IsDir, Names, Ranked, Acyclic;
    assert Rooted(fs') by { SameShapeRooted(fs, fs'); }
    assert Acyclic(fs') by { SameShapeAcyclic(fs, fs'); }
  }

  lemma SameShapeRooted(fs: Fs, fs': Fs)
    requires Rooted(fs) && SameShape(fs, fs')
    ensures Rooted(fs')
  {
    hide Child;
    forall h | h in fs'.nodes && h != fs'.root ensures HasEntry(fs', h) {
      assert HasEntry(fs, h);
      var d, n :| Child(fs, d, n) == Some(h);
      assert Child(fs', d, n) == Some(h);
    }
  }

  lemma SameShapeAcyclic(fs: Fs, fs': Fs)
    requires Acyclic(fs) && SameShape(fs, fs')
    ensures Acyclic(fs')
  {
    var rank :| Ranked(fs, rank);
    forall d, n | Child(fs', d, n).Some?
      ensures d in rank && Child(fs', d, n).value in rank && rank[Child(fs', d, n).value] < rank[d]
    {
      RankedChild(fs, rank, d, n);
    }
    RankedByChild(fs', rank);
  }

  /** One object has changed, and is still a directory with the same entries or none. */
  lemma NodeChanged(fs: Fs, h: bytes, n: Node)
    requires h in fs.nodes && n.Dir? == fs.nodes[h].Dir? && (n.Dir? ==> n.entries == fs.nodes[h].entries)
    ensures SameShape(fs, fs.(nodes := fs.nodes[h := n]))
  {
  }

  lemma AddedChild(fs: Fs, d: bytes, name: bytes, h: bytes, node: Node)
    requires AddAt(fs, d, name, h, node).Good? && h !in fs.nodes && (node.Dir? ==> node.entries == map[])
    ensures var fs' := AddAt(fs, d, name, h, node).value;
            && fs'.nodes.Keys == fs.nodes.Keys + {h} && fs'.nodes[h] == node && SameKinds(fs, fs')
            && (forall x, n :: Child(fs', x, n) == if (x, n) == (d, name) then Some(h) else Child(fs, x, n))
  {
  }

  lemma RemovedChild(fs: Fs, d: bytes, name: bytes)
    requires RemoveAt(fs, d, name).Good?
    ensures var fs' := RemoveAt(fs, d, name).value;
            && Child(fs, d, name).Some? && fs'.nodes.Keys == fs.nodes.Keys - {Child(fs, d, name).value} && SameKinds(fs, fs')
            && (forall x, n :: Child(fs', x, n) == if (x, n) == (d, name) then None else Child(fs, x, n))
  {
  }

  /** RENAME moves one entry: the object is where it was sent, no longer where it was, and all other entries
      are as they were.  The only object that can disappear is the one that was replaced. */
  lemma MovedChild(fs: Fs, s: bytes, sn: bytes, d: bytes, dn: bytes)
    requires Linked(fs) && RenameAt(fs, s, sn, d, dn).Good?
    ensures var fs' := RenameAt(fs, s, sn, d, dn).value;
            && fs'.nodes.Keys <= fs.nodes.Keys && Child(fs, s, sn).Some? && SameKinds(fs, fs')
            && (forall h | h in fs.nodes && h !in fs'.nodes :: Child(fs, d, dn) == Some(h) && Child(fs, s, sn) != Some(h))
            && (forall x, n :: Child(fs', x, n) == if (x, n) == (d, dn) then Child(fs, s, sn)
                                                  else if (x, n) == (s, sn) then None else Child(fs, x, n))
  {
    hide Below;
    assert Child(fs, s, sn).Some?;
    var fs' := RenameAt(fs, s, sn, d, dn).value;
    if Child(fs, d, dn) != Child(fs, s, sn) {
      assert fs' == Moved(fs, s, sn, d, dn);
      hide RenameAt;
      MovedEntries(fs, s, sn, d, dn);
    }
  }

  lemma MovedEntries(fs: Fs, s: bytes, sn: bytes, d: bytes, dn: bytes)
    requires sn in Names(fs, s) && IsDir(fs, d) && Child(fs, d, dn) != Child(fs, s, sn)
    requires dn in Names(fs, d) ==> !Occupied(fs, fs.nodes[d].entries[dn])
    ensures var fs' := Moved(fs, s, sn, d, dn);
            && fs'.nodes.Keys == fs.nodes.Keys - (if dn in Names(fs, d) then {fs.nodes[d].entries[dn]} else {})
                 && SameKinds(fs, fs')
            && (forall x, n :: Child(fs', x, n) == if (x, n) == (d, dn) then Child(fs, s, sn)
                                                  else if (x, n) == (s, sn) then None else Child(fs, x, n))
  {
  }

  lemma AddKeepsSound(fs: Fs, d: bytes, name: bytes, h: bytes, node: Node)
    requires Sound(fs) && AddAt(fs, d, name, h, node).Good? && (node.Dir? ==> node.entries == map[])
    requires h !in fs.nodes && h != []
    ensures Sound(AddAt(fs, d, name, h, node).value)
  {
    var fs' := AddAt(fs, d, name, h, node).value;
    AddedChild(fs, d, name, h, node);
    assert name != [] && !IsDots(name) && Child(fs, d, name).None?;
    hide AddAt, Child, EntriesOf, IsDir, IsDots, Ranked, Rooted, Acyclic;
    assert fs.root in fs.nodes by { RootIsThere(fs); }
    AddKeepsLinked(fs, fs', d, name, h);
    assert Named(fs');
    assert d in fs.nodes;
    hide Linked, Named;
    AddKeepsRooted(fs, fs', d, name, h);
    assert Acyclic(fs') by { AddKeepsAcyclic(fs, fs', d, name, h); }
  }

  lemma RootIsThere(fs: Fs)
    requires Linked(fs)
    ensures fs.root in fs.nodes
  {
  }

  lemma AddKeepsLinked(fs: Fs, fs': Fs, d: bytes, name: bytes, h: bytes)
    requires Linked(fs) && OneEntryMore(fs, fs', d, name, h) && SameKinds(fs, fs')
    ensures Linked(fs')
  {
    hide Child;
    assert fs.root in fs'.nodes;
  }

  lemma AddKeepsAcyclic(fs: Fs, fs': Fs, d: bytes, name: bytes, h: bytes)
    requires Linked(fs) && Acyclic(fs) && OneEntryMore(fs, fs', d, name, h) && d in fs.nodes
    ensures Acyclic(fs')
  {
    hide Ranked, Child;
    var rank :| Ranked(fs, rank);
    AddKeepsRank(fs, fs', d, name, h, rank);
  }

  /** One entry more, for one object more. */
  ghost predicate OneEntryMore(fs: Fs, fs': Fs, d: bytes, name: bytes, h: bytes) {
    && fs'.nodes.Keys == fs.nodes.Keys + {h} && fs'.root == fs.root && Child(fs, d, name).None? && h !in fs.nodes
    && (forall x, n :: Child(fs', x, n) == if (x, n) == (d, name) then Some(h) else Child(fs, x, n))
  }

  lemma AddKeepsRooted(fs: Fs, fs': Fs, d: bytes, name: bytes, h: bytes)
    requires Rooted(fs) && OneEntryMore(fs, fs', d, name, h)
    ensures Rooted(fs')
  {
    hide Child;
    forall x | x in fs'.nodes && x != fs'.root ensures HasEntry(fs', x) {
      if x == h {
        assert Child(fs', d, name) == Some(x);
      } else {
        assert HasEntry(fs, x);
        var e, n :| Child(fs, e, n) == Some(x);
        assert Child(fs', e, n) == Some(x);
      }
    }
  }

  lemma AddKeepsRank(fs: Fs, fs': Fs, d: bytes, name: bytes, h: bytes, rank: map<bytes, nat>)
    requires Linked(fs) && Ranked(fs, rank) && OneEntryMore(fs, fs', d, name, h) && d in fs.nodes
    ensures Acyclic(fs')
  {
    var rank' := map x | x in rank.Keys + {h} :: if x == h then 0 else rank[x] + 1;
    forall e, n | Child(fs', e, n).Some?
      ensures e in rank' && Child(fs', e, n).value in rank' && rank'[Child(fs', e, n).value] < rank'[e]
    {
      if (e, n) != (d, name) { RankedChild(fs, rank, e, n); }
    }
    RankedByChild(fs', rank');
  }

  /** An entry fewer, and its object gone with it. */
  ghost predicate OneEntryFewer(fs: Fs, fs': Fs, d: bytes, name: bytes) {
    && Child(fs, d, name).Some? && fs'.root == fs.root && fs'.nodes.Keys == fs.nodes.Keys - {Child(fs, d, name).value}
    && (forall x, n :: Child(fs', x, n) == if (x, n) == (d, name) then None else Child(fs, x, n))
  }

  lemma RemoveKeepsSound(fs: Fs, d: bytes, name: bytes)
    requires Sound(fs) && RemoveAt(fs, d, name).Good?
    ensures Sound(RemoveAt(fs, d, name).value)
    ensures forall rank | Ranked(fs, rank) :: Ranked(RemoveAt(fs, d, name).value, rank)
  {
    var fs' := RemoveAt(fs, d, name).value;
    RemovedChild(fs, d, name);
    assert fs.root in fs.nodes;
    hide RemoveAt, Child, EntriesOf, IsDir, IsDots, Ranked, Acyclic, Rooted;
    RemoveKeepsLinked(fs, fs', d, name);
    assert Named(fs');
    hide Linked, Named;
    RemoveKeepsRooted(fs, fs', d, name);
    forall rank | Ranked(fs, rank) ensures Ranked(fs', rank) { RemoveKeepsRank(fs, fs', d, name, rank); }
    assert Acyclic(fs') by { StillAcyclic(fs, fs'); }
  }

  lemma StillAcyclic(fs: Fs, fs': Fs)
    requires Acyclic(fs) && forall rank | Ranked(fs, rank) :: Ranked(fs', rank)
    ensures Acyclic(fs')
  {
    hide Ranked;
    var rank :| Ranked(fs, rank);
    assert Ranked(fs', rank);
  }

  lemma RemoveKeepsLinked(fs: Fs, fs': Fs, d: bytes, name: bytes)
    requires Linked(fs) && OneEntryFewer(fs, fs', d, name) && SameKinds(fs, fs')
    ensures Linked(fs')
  {
    hide Child;
    assert fs.root in fs'.nodes;
  }

  lemma RemoveKeepsRooted(fs: Fs, fs': Fs, d: bytes, name: bytes)
    requires Rooted(fs) && OneEntryFewer(fs, fs', d, name)
    ensures Rooted(fs')
  {
    hide Child;
    forall x | x in fs'.nodes && x != fs'.root ensures HasEntry(fs', x) {
      assert HasEntry(fs, x);
      var e, n :| Child(fs, e, n) == Some(x);
      assert Child(fs', e, n) == Some(x);
    }
  }

  lemma RemoveKeepsRank(fs: Fs, fs': Fs, d: bytes, name: bytes, rank: map<bytes, nat>)
    requires Ranked(fs, rank) && OneEntryFewer(fs, fs', d, name)
    ensures Ranked(fs', rank)
  {
    hide Child;
    assert fs.nodes.Keys <= rank.Keys;
    forall e, n | Child(fs', e, n).Some?
      ensures e in rank && Child(fs', e, n).value in rank && rank[Child(fs', e, n).value] < rank[e]
    {
      RankedChild(fs, rank, e, n);
    }
    RankedByChild(fs', rank);
  }

  /** An entry has moved, at most one object has been replaced, and the rest is as it was. */
  ghost predicate OneEntryMoved(fs: Fs, fs': Fs, s: bytes, sn: bytes, d: bytes, dn: bytes) {
    && fs'.root == fs.root && fs'.nodes.Keys <= fs.nodes.Keys && Child(fs, s, sn).Some?
    && (forall h | h in fs.nodes && h !in fs'.nodes :: Child(fs, d, dn) == Some(h) && Child(fs, s, sn) != Some(h))
    && (Child(fs, d, dn).Some? && Child(fs, d, dn) != Child(fs, s, sn) ==> Child(fs, d, dn).value !in fs'.nodes)
    && (forall x, n :: Child(fs', x, n) == if (x, n) == (d, dn) then Child(fs, s, sn)
                                          else if (x, n) == (s, sn) then None else Child(fs, x, n))
  }

  lemma RenameKeepsSound(fs: Fs, s: bytes, sn: bytes, d: bytes, dn: bytes)
    requires Sound(fs) && RenameAt(fs, s, sn, d, dn).Good?
    ensures Sound(RenameAt(fs, s, sn, d, dn).value)
  {
    var fs' := RenameAt(fs, s, sn, d, dn).value;
    var h := Child(fs, s, sn).value;
    if fs' != fs {
      MovedChild(fs, s, sn, d, dn);
      MovedIsMoved(fs, s, sn, d, dn);
      assert dn != [] && !IsDots(dn);
      assert fs.root in fs.nodes;
      hide RenameAt, EntriesOf, IsDir, IsDots, Ranked, Names, Child;
      assert Named(fs');
      MoveKeepsLinked(fs, fs', s, sn, d, dn);
      MoveKeepsRooted(fs, fs', s, sn, d, dn);
      var rank :| Ranked(fs, rank);
      MoveKeepsRank(fs, fs', s, sn, d, dn, rank);
    }
  }

  lemma MovedIsMoved(fs: Fs, s: bytes, sn: bytes, d: bytes, dn: bytes)
    requires Sound(fs) && RenameAt(fs, s, sn, d, dn).Good? && RenameAt(fs, s, sn, d, dn).value != fs
    ensures OneEntryMoved(fs, RenameAt(fs, s, sn, d, dn).value, s, sn, d, dn) && d in fs.nodes
    ensures !Below(fs, Child(fs, s, sn).value, d)
  {
    hide Rooted, Named, Acyclic, Below;
    MovedChild(fs, s, sn, d, dn);
  }

  lemma MoveKeepsLinked(fs: Fs, fs': Fs, s: bytes, sn: bytes, d: bytes, dn: bytes)
    requires Linked(fs) && OneEntryMoved(fs, fs', s, sn, d, dn) && IsDir(fs', fs'.root)
    ensures Linked(fs')
  {
    hide Child, IsDir, Names;
  }

  lemma MoveKeepsRooted(fs: Fs, fs': Fs, s: bytes, sn: bytes, d: bytes, dn: bytes)
    requires Rooted(fs) && OneEntryMoved(fs, fs', s, sn, d, dn)
    ensures Rooted(fs')
  {
    hide Child, Names;
    forall x | x in fs'.nodes && x != fs'.root ensures HasEntry(fs', x) {
      assert HasEntry(fs, x);
      var e, n :| Child(fs, e, n) == Some(x);
      if (e, n) == (s, sn) || (e, n) == (d, dn) {
        assert Child(fs', d, dn) == Child(fs, s, sn);
      } else {
        assert Child(fs', e, n) == Some(x);
      }
    }
  }

  /** The moved subtree keeps its heights and everything else is raised above it. */
  lemma MoveKeepsRank(fs: Fs, fs': Fs, s: bytes, sn: bytes, d: bytes, dn: bytes, rank: map<bytes, nat>)
    requires Linked(fs) && Ranked(fs, rank) && OneEntryMoved(fs, fs', s, sn, d, dn) && d in fs.nodes
    requires !Below(fs, Child(fs, s, sn).value, d)
    ensures Acyclic(fs')
  {
    var h := Child(fs, s, sn).value;
    RankedChild(fs, rank, s, sn);
    var moved := Sub(fs, rank, h);
    var rank' := map x | x in rank :: if x in moved then rank[x] else rank[x] + rank[h] + 1;
    assert d !in moved by { SubIsBelow(fs, rank, h, d); }
    forall e, n | Child(fs', e, n).Some?
      ensures e in rank' && Child(fs', e, n).value in rank' && rank'[Child(fs', e, n).value] < rank'[e]
    {
      if (e, n) != (d, dn) {
        RankedChild(fs, rank, e, n);
        SubClosed(fs, rank, h, e, n);
      }
    }
    RankedByChild(fs', rank');
  }

  /** The tree after a call. */
  ghost function TreeAfter(fs: Fs, c: FsCall, spare: Spare): Fs {
    var w := Wanted(fs, c, spare);
    if w.Good? then w.value.fs else fs
  }

  /** Every call keeps the tree a tree. */
  lemma CallKeepsSound(fs: Fs, c: FsCall, spare: Spare)
    requires Sound(fs) && spare.handle !in fs.nodes && spare.handle != []
    ensures Sound(TreeAfter(fs, c, spare)) && TreeAfter(fs, c, spare).nodes.Keys <= fs.nodes.Keys + {spare.handle}
  {
    if Wanted(fs, c, spare).Good? {
      match c {
        case MakeDir(_, _, _) => MakeKeepsSound(fs, c, spare);
        case MakeLink(_, _, _, _) => MakeKeepsSound(fs, c, spare);
        case OpenNamed(_, _, _, _, _, _, _) => OpenKeepsSound(fs, c, spare);
        case Unlink(dir, name) =>
          RemoveKeepsSound(fs, Resolve(fs, dir).value, name);
          RemovedChild(fs, Resolve(fs, dir).value, name);
        case Move(srcDir, srcName, dstDir, dstName) =>
          RenameKeepsSound(fs, Resolve(fs, srcDir).value, srcName, Resolve(fs, dstDir).value, dstName);
          MovedChild(fs, Resolve(fs, srcDir).value, srcName, Resolve(fs, dstDir).value, dstName);
        case _ => ObjectCallKeepsSound(fs, c, spare);
      }
    }
  }

  lemma MakeKeepsSound(fs: Fs, c: FsCall, spare: Spare)
    requires Sound(fs) && spare.handle !in fs.nodes && spare.handle != [] && Wanted(fs, c, spare).Good?
    requires c.MakeDir? || c.MakeLink?
    ensures Sound(TreeAfter(fs, c, spare)) && TreeAfter(fs, c, spare).nodes.Keys <= fs.nodes.Keys + {spare.handle}
  {
    hide AddAt, Sound, Overlay;
    var n := Changed(if c.MakeDir? then Dir(map[], spare.attrs) else Link(c.target, spare.attrs), c.attrs).value;
    AddKeepsSound(fs, Resolve(fs, c.dir).value, c.name, spare.handle, n);
    AddedChild(fs, Resolve(fs, c.dir).value, c.name, spare.handle, n);
  }

  lemma OpenKeepsSound(fs: Fs, c: FsCall, spare: Spare)
    requires Sound(fs) && spare.handle !in fs.nodes && spare.handle != [] && Wanted(fs, c, spare).Good?
    requires c.OpenNamed?
    ensures Sound(TreeAfter(fs, c, spare)) && TreeAfter(fs, c, spare).nodes.Keys <= fs.nodes.Keys + {spare.handle}
  {
    hide Sound, AddAt, SameShape, Overlay;
    var d := Resolve(fs, c.dir).value;
    var after := TreeAfter(fs, c, spare);
    if c.name in EntriesOf(fs, d).value {
      OpenFound(fs, c, spare);
      SameShapeSound(fs, after);
    } else {
      var n := File([], {}, Overlay(spare.attrs, Sattr4(None, None, None, None, None, None)));
      var made := AddAt(fs, d, c.name, spare.handle, n).value;
      AddKeepsSound(fs, d, c.name, spare.handle, n);
      AddedChild(fs, d, c.name, spare.handle, n);
      SameShapeItself(made, after);
      SameShapeSound(made, after);
    }
  }

  lemma OpenFound(fs: Fs, c: FsCall, spare: Spare)
    requires c.OpenNamed? && Wanted(fs, c, spare).Good? && c.name in EntriesOf(fs, Resolve(fs, c.dir).value).value
    ensures SameShape(fs, TreeAfter(fs, c, spare)) && TreeAfter(fs, c, spare).nodes.Keys == fs.nodes.Keys
  {
    hide SameShape, AddAt, Overlay;
    SameShapeItself(fs, TreeAfter(fs, c, spare));
  }

  lemma ObjectCallKeepsSound(fs: Fs, c: FsCall, spare: Spare)
    requires Sound(fs) && Wanted(fs, c, spare).Good?
    requires !c.MakeDir? && !c.MakeLink? && !c.OpenNamed? && !c.Unlink? && !c.Move?
    ensures Sound(TreeAfter(fs, c, spare)) && TreeAfter(fs, c, spare).nodes.Keys == fs.nodes.Keys
  {
    hide Sound, Overlay, Overwritten, Positions, Resized, BitAnd;
    ObjectCallKeepsShape(fs, c, spare);
    SameShapeSound(fs, TreeAfter(fs, c, spare));
  }

  lemma ObjectCallKeepsShape(fs: Fs, c: FsCall, spare: Spare)
    requires Wanted(fs, c, spare).Good?
    requires !c.MakeDir? && !c.MakeLink? && !c.OpenNamed? && !c.Unlink? && !c.Move?
    ensures SameShape(fs, TreeAfter(fs, c, spare))
  {
    hide Overlay, Overwritten, Positions, Resized, BitAnd, SameShape;
    SameShapeItself(fs, TreeAfter(fs, c, spare));
    if c.WriteFile? || c.FlushFile? || c.Change? {
      var h := Resolve(fs, c.fh).value;
      NodeChanged(fs, h, TreeAfter(fs, c, spare).nodes[h]);
    }
  }

  lemma SameShapeItself(fs: Fs, fs': Fs)
    requires fs'.root == fs.root
    ensures fs'.nodes == fs.nodes ==> SameShape(fs, fs')
  {
  }

  /** A lookup after a call finds what the call put there, or that it is gone. */
  lemma FoundAfter(fs: Fs, c: FsCall, spare: Spare)
    requires Linked(fs) && spare.handle !in fs.nodes && Wanted(fs, c, spare).Good?
    ensures var after := Wanted(fs, c, spare).value.fs;
            && (c.MakeDir? || c.MakeLink? ==> FoundAt(after, c.dir, c.name) == Good(spare.handle))
            && (c.Unlink? ==> FoundAt(after, c.dir, c.name) == Bad(NFS4ERR_NOENT))
            && (c.Move? ==> FoundAt(after, c.dstDir, c.dstName) == FoundAt(fs, c.srcDir, c.srcName))
  {
    hide Overlay;
    match c {
      case MakeDir(dir, name, _) => FoundIsChild(Wanted(fs, c, spare).value.fs, dir, name);
      case MakeLink(dir, name, _, _) => FoundIsChild(Wanted(fs, c, spare).value.fs, dir, name);
      case Unlink(dir, name) => FoundIsChild(Wanted(fs, c, spare).value.fs, dir, name);
      case Move(_, _, _, _) => FoundAfterMove(fs, c, spare);
      case _ =>
    }
  }

  lemma FoundAfterMove(fs: Fs, c: FsCall, spare: Spare)
    requires Linked(fs) && c.Move? && Wanted(fs, c, spare).Good?
    ensures FoundAt(Wanted(fs, c, spare).value.fs, c.dstDir, c.dstName) == FoundAt(fs, c.srcDir, c.srcName)
  {
    var s, d := Resolve(fs, c.srcDir).value, Resolve(fs, c.dstDir).value;
    MovedChild(fs, s, c.srcName, d, c.dstName);
    FoundIsChild(fs, c.srcDir, c.srcName);
    FoundIsChild(Wanted(fs, c, spare).value.fs, c.dstDir, c.dstName);
  }

  lemma FoundIsChild(fs: Fs, dir: bytes, name: bytes)
    requires Resolve(fs, dir).Good? && IsDir(fs, Resolve(fs, dir).value) && CheckName(name).Good?
    ensures var child := Child(fs, Resolve(fs, dir).value, name);
            FoundAt(fs, dir, name) == if child.Some? then Good(child.value) else Bad(NFS4ERR_NOENT)
  {
  }

  /** What one call makes, another unmakes: everything is exactly what it was. */
  lemma MakeThenUnlink(fs: Fs, c: FsCall, spare: Spare)
    requires (c.MakeDir? || c.MakeLink?) && spare.handle !in fs.nodes && Wanted(fs, c, spare).Good?
    ensures Wanted(Wanted(fs, c, spare).value.fs, Unlink(c.dir, c.name), spare) == Good(Done(fs, None, Silent))
  {
    hide Overlay;
    var d := Resolve(fs, c.dir).value;
    var h := spare.handle;
    var fs1 := Wanted(fs, c, spare).value.fs;
    var es := fs.nodes[d].entries;
    assert es[c.name := h] - {c.name} == es;
    assert (fs1.nodes - {h})[d := fs1.nodes[d].(entries := es)] == fs.nodes;
  }

  /** Moving an object to a free name and back again restores the tree. */
  lemma MoveBack(fs: Fs, s: bytes, sn: bytes, d: bytes, dn: bytes)
    requires Sound(fs) && Child(fs, d, dn).None? && RenameAt(fs, s, sn, d, dn).Good?
    ensures RenameAt(RenameAt(fs, s, sn, d, dn).value, d, dn, s, sn) == Good(fs)
  {
    hide Below, Linked, Rooted, Named, Acyclic;
    var fs1 := RenameAt(fs, s, sn, d, dn).value;
    MovedChild(fs, s, sn, d, dn);
    assert fs1 != fs by { assert Child(fs1, d, dn) != Child(fs, d, dn); }
    MovedIsMoved(fs, s, sn, d, dn);
    NotBackBelow(fs, fs1, s, sn, d, dn);
    assert fs1 == Moved(fs, s, sn, d, dn);
    assert Child(fs1, s, sn).None?;
    MovedTwice(fs, s, sn, d, dn);
  }

  lemma MovedTwice(fs: Fs, s: bytes, sn: bytes, d: bytes, dn: bytes)
    requires sn in Names(fs, s) && IsDir(fs, d) && dn !in Names(fs, d)
    ensures var fs1 := Moved(fs, s, sn, d, dn);
            && dn in Names(fs1, d) && IsDir(fs1, s) && sn !in Names(fs1, s) && Moved(fs1, d, dn, s, sn) == fs
  {
    var es, ed := fs.nodes[s].entries, fs.nodes[d].entries;
    var fs1 := Moved(fs, s, sn, d, dn);
    if s == d {
      assert (es - {sn})[dn := es[sn]] - {dn} == es - {sn};
      assert (es - {sn})[sn := es[sn]] == es;
    } else {
      assert ed[dn := es[sn]] - {dn} == ed;
      assert (es - {sn})[sn := es[sn]] == es;
    }
    assert Moved(fs1, d, dn, s, sn).nodes == fs.nodes;
  }

  /** The directory that an object came from is not below it afterwards either. */
  lemma NotBackBelow(fs: Fs, fs': Fs, s: bytes, sn: bytes, d: bytes, dn: bytes)
    requires Sound(fs) && OneEntryMoved(fs, fs', s, sn, d, dn) && d in fs.nodes && !Below(fs, Child(fs, s, sn).value, d)
    ensures !Below(fs', Child(fs, s, sn).value, s)
  {
    hide Linked, Rooted, Named, Child, Ranked;
    var h := Child(fs, s, sn).value;
    var rank :| Ranked(fs, rank);
    RankedChild(fs, rank, s, sn);
    SubIsBelow(fs, rank, h, d);
    if Below(fs', h, s) {
      var path :| Follow(fs', h, path) == Some(s);
      SamePath(fs, fs', rank, h, h, s, d, path);
      SubIsBelow(fs, rank, h, s);
    }
  }

  /** Paths from below an object are not touched by changes elsewhere. */
  lemma {:induction false} SamePath(fs: Fs, fs': Fs, rank: map<bytes, nat>, h: bytes, x: bytes, s: bytes, d: bytes,
                                    path: seq<bytes>)
    requires Linked(fs) && Ranked(fs, rank) && h in rank && x in Sub(fs, rank, h)
    requires s !in Sub(fs, rank, h) && d !in Sub(fs, rank, h)
    requires forall e, n | e != s && e != d :: Child(fs', e, n) == Child(fs, e, n)
    ensures Follow(fs', x, path) == Follow(fs, x, path)
    decreases |path|
  {
    if path != [] {
      var c := Child(fs, x, path[0]);
      if c.Some? {
        SubClosed(fs, rank, h, x, path[0]);
        SamePath(fs, fs', rank, h, c.value, s, d, path[1..]);
      }
    }
  }

  /* ----- whole runs ----- */

  predicate InV41(m: Compound) { m.ops != [] && m.ops[0].Sequence? }

  /** A request for a call: its operations, in a v4.1 session with SEQUENCE in front. */
  predicate Asks(m: Compound, c: FsCall) {
    if InV41(m) then m.minor == 1 && m.ops[1..] == OpsOf(c) else m.minor == 0 && m.ops == OpsOf(c)
  }

  /** A server runs what comes in a session as minor version 1 and anything else as minor version 0. */
  ghost function RunRequest(fs: Fs, m: Compound, spare: Spare): Ran {
    if m.minor == (if InV41(m) then 1 else 0) then Run(Start(fs), m.ops, spare)
    else Ran(Start(fs), NFS4ERR_MINOR_VERS_MISMATCH)
  }

  /** How a server ends each of the requests that it runs one after the other. */
  ghost function ServeRequests(fs: Fs, ms: seq<Compound>, spares: seq<Spare>): (r: seq<Ran>)
    requires |spares| == |ms|
    ensures |r| == |ms|
    decreases |ms|
  {
    if ms == [] then []
    else
      var ran := RunRequest(fs, ms[0], spares[0]);
      [ran] + ServeRequests(ran.m.fs, ms[1..], spares[1..])
  }

  /** The tree before the first call and after each. */
  ghost function Trees(fs: Fs, cs: seq<FsCall>, spares: seq<Spare>): (r: seq<Fs>)
    requires |spares| == |cs|
    ensures |r| == |cs| + 1 && r[0] == fs
    decreases |cs|
  {
    if cs == [] then [fs] else [fs] + Trees(TreeAfter(fs, cs[0], spares[0]), cs[1..], spares[1..])
  }

  ghost predicate NewHandles(fs: Fs, spares: seq<Spare>) {
    && (forall i :: 0 <= i < |spares| ==> spares[i].handle !in fs.nodes && spares[i].handle != [])
    && (forall i, j :: 0 <= i < j < |spares| ==> spares[i].handle != spares[j].handle)
  }

  /** Over any run of calls: each ends as wanted on the tree that the ones before it left, and that is a tree. */
  lemma {:induction false} WholeRun(fs: Fs, cs: seq<FsCall>, ms: seq<Compound>, spares: seq<Spare>)
    requires |ms| == |cs| == |spares| && forall i :: 0 <= i < |cs| ==> Asks(ms[i], cs[i])
    requires Sound(fs) && NewHandles(fs, spares)
    ensures var rans, trees := ServeRequests(fs, ms, spares), Trees(fs, cs, spares);
            && (forall i :: 0 <= i < |cs| ==> EndsAs(rans[i], trees[i], Wanted(trees[i], cs[i], spares[i])))
            && (forall i :: 0 <= i <= |cs| ==> Sound(trees[i]))
            && (forall i :: 0 <= i < |cs| ==> rans[i].m.fs == trees[i + 1])
    decreases |cs|
  {
    hide Sound, Wanted, Run, OpsOf, Asks;
    if cs != [] {
      assert Asks(ms[0], cs[0]);
      AskedRuns(fs, ms[0], cs[0], spares[0]);
      CallKeepsSound(fs, cs[0], spares[0]);
      WholeRun(TreeAfter(fs, cs[0], spares[0]), cs[1..], ms[1..], spares[1..]);
    }
  }

  lemma AskedRuns(fs: Fs, m: Compound, c: FsCall, spare: Spare)
    requires Asks(m, c)
    ensures EndsAs(RunRequest(fs, m, spare), fs, Wanted(fs, c, spare))
    ensures RunRequest(fs, m, spare).m.fs == TreeAfter(fs, c, spare)
  {
    hide Wanted, Run, OpsOf;
    RunsAsWanted(fs, c, spare);
    if InV41(m) {
      assert m.ops == [m.ops[0]] + m.ops[1..];
      RunFront(Start(fs), m.ops[0], m.ops[1..], spare);
    }
  }
}
