/** The objects of a server and what the operations on a single one do: its attributes, its contents and the state
    ids of those who have it open (sections 5, 9 and 16 of RFC 7530). */
module Objects {
  import opened Wire
  import opened Bitmap
  import opened Attributes
  import opened Ops
  import opened FileTrees

  const NFS4ERR_NOENT: u32 := 2
  const NFS4ERR_EXIST: u32 := 17
  const NFS4ERR_NOTDIR: u32 := 20
  const NFS4ERR_ISDIR: u32 := 21
  const NFS4ERR_INVAL: u32 := 22
  const NFS4ERR_FBIG: u32 := 27
  const NFS4ERR_NOTEMPTY: u32 := 66
  const NFS4ERR_STALE: u32 := 70
  const NFS4ERR_BADHANDLE: u32 := 10001
  const NFS4ERR_NOFILEHANDLE: u32 := 10020
  const NFS4ERR_MINOR_VERS_MISMATCH: u32 := 10021
  const NFS4ERR_STALE_CLIENTID: u32 := 10022
  const NFS4ERR_BAD_STATEID: u32 := 10025
  const NFS4ERR_SYMLINK: u32 := 10029
  const NFS4ERR_OPENMODE: u32 := 10038
  const NFS4ERR_BADNAME: u32 := 10041
  const NFS4ERR_BADSESSION: u32 := 10052
  const NFS4ERR_SEQ_MISORDERED: u32 := 10063
  const NFS4ERR_OP_NOT_IN_SESSION: u32 := 10071

  type errcode = x: u32 | x != 0 witness 1

  datatype Answer<+T> = Good(value: T) | Bad(code: errcode) {
    predicate IsFailure() { Bad? }
    function PropagateFailure<U>(): Answer<U> requires Bad? { Bad(code) }
    function Extract(): T requires Good? { value }
  }

  /** What a server is free to choose for one request: the handle, the attributes and the state id of what it makes,
      whether it wants an OPEN confirmed, the rights it knows of and grants, and the most that it reads or writes. */
  datatype Spare = Spare(handle: bytes, attrs: Attrs, stateid: Stateid4, confirm: bool, supported: u32, rights: u32, most: u32)

  /* ----- attributes ----- */

  function TypeOf(n: Node): u32 {
    match n
    case File(_, _, _) => 1
    case Dir(_, _) => 2
    case Link(_, _) => 5
  }

  /** All attributes of an object.  Its type is what it is, and the size of a file that of its contents. */
  function AttrsOf(n: Node): Attrs {
    var m := n.attrs[1 := WordVal(TypeOf(n))];
    if n.File? then m[4 := LongVal(|n.data|)] else m
  }

  /** The attributes to set, under the ids that they are read with. */
  function Overlay(m: Attrs, a: Sattr4): Attrs {
    AddIf(AddIf(AddIf(AddIf(AddIf(m, 33, WordOf(a.mode)), 36, TextOf(a.owner)), 37, TextOf(a.ownerGroup)),
      47, TimeOf(a.timeAccess)), 53, TimeOf(a.timeModify))
  }

  /** Contents cut off or filled up with zeros. */
  function Resized(d: content, size: u64): (r: content)
    ensures |r| == size
    ensures forall i :: 0 <= i < size ==> r[i] == if i < |d| then d[i] else 0
  {
    if size <= |d| then d[..size] else d + Zeros(size - |d|)
  }

  /** Setting attributes.  Only a file has a size to set. */
  function Changed(n: Node, a: Sattr4): Answer<Node> {
    match n
    case Dir(entries, attrs) => if a.size.Some? then Bad(NFS4ERR_ISDIR) else Good(Dir(entries, Overlay(attrs, a)))
    case Link(target, attrs) => if a.size.Some? then Bad(NFS4ERR_INVAL) else Good(Link(target, Overlay(attrs, a)))
    case File(data, loose, attrs) =>
      if a.size.None? then Good(File(data, loose, Overlay(attrs, a)))
      else Good(File(Resized(data, a.size.value), (set p | p in loose && p < a.size.value), Overlay(attrs, a)))
  }

  /** The attributes among those asked for. */
  function Requested(m: Attrs, request: seq<u32>): Attrs {
    map id | id in m && id < TWO_32 && Test(request, id) :: m[id]
  }

  /* ----- state ids ----- */

  /** The state id of all zeros stands for none. */
  function NoState(): Stateid4 { Stateid4(0, [0, 0, 0, 0, 0, 0, 0, 0, 0, 0, 0, 0]) }

  /** A state id is good for the object that was opened with it, once that is confirmed, and for the kind of access
      that was asked for: bit 0 is reading and bit 1 writing. */
  function CheckState(fs: Fs, h: bytes, s: Stateid4, bit: nat): Answer<()> {
    if s == NoState() then Good(())
    else if s !in fs.opens || fs.opens[s].fh != h || !fs.opens[s].confirmed then Bad(NFS4ERR_BAD_STATEID)
    else if Bit(fs.opens[s].access, bit) then Good(()) else Bad(NFS4ERR_OPENMODE)
  }

  function ConfirmAt(fs: Fs, h: bytes, s: Stateid4, next: Stateid4): Answer<Fs> {
    if s !in fs.opens || fs.opens[s].fh != h || fs.opens[s].confirmed then Bad(NFS4ERR_BAD_STATEID)
    else Good(fs.(opens := (fs.opens - {s})[next := fs.opens[s].(confirmed := true)]))
  }

  function CloseAt(fs: Fs, h: bytes, s: Stateid4): Answer<Fs> {
    if s !in fs.opens || fs.opens[s].fh != h then Bad(NFS4ERR_BAD_STATEID) else Good(fs.(opens := fs.opens - {s}))
  }

  /* ----- one object ----- */

  function NodeAt(fs: Fs, h: bytes): Answer<Node> { if h in fs.nodes then Good(fs.nodes[h]) else Bad(NFS4ERR_STALE) }

  function FileAt(fs: Fs, h: bytes): (r: Answer<Node>)
    ensures r.Good? ==> h in fs.nodes && fs.nodes[h].File? && r.value == fs.nodes[h]
  {
    var n :- NodeAt(fs, h);
    match n
    case File(_, _, _) => Good(n)
    case Dir(_, _) => Bad(NFS4ERR_ISDIR)
    case Link(_, _) => Bad(NFS4ERR_INVAL)
  }

  function ShowAt(fs: Fs, h: bytes, request: seq<u32>): Answer<Attrs> {
    var n :- NodeAt(fs, h);
    Good(Requested(AttrsOf(n), request))
  }

  function ChangeAt(fs: Fs, h: bytes, s: Stateid4, a: Sattr4): Answer<Fs> {
    var n :- NodeAt(fs, h);
    var _ :- CheckState(fs, h, s, 1);
    var n' :- Changed(n, a);
    Good(fs.(nodes := fs.nodes[h := n']))
  }

  function TargetAt(fs: Fs, h: bytes): Answer<bytes> {
    var n :- NodeAt(fs, h);
    if n.Link? then Good(n.target) else Bad(NFS4ERR_INVAL)
  }

  function Least(a: nat, b: nat): nat { if a <= b then a else b }

  /** The bytes from `offset` on, as many as there are, were asked for and are read at once, and whether that is all
      there is. */
  function ReadAt(fs: Fs, h: bytes, s: Stateid4, offset: u64, count: u32, most: u32): Answer<(bytes, bool)> {
    var n :- FileAt(fs, h);
    var _ :- CheckState(fs, h, s, 0);
    if offset >= |n.data| then Good(([], true))
    else
      var end := Least(offset + Least(count, most), |n.data|);
      Good((n.data[offset..end], end == |n.data|))
  }

  function Positions(offset: nat, end: nat): (r: set<nat>)
    ensures forall p :: p in r <==> offset <= p < end
    decreases end - offset
  {
    if offset >= end then {} else {offset} + Positions(offset + 1, end)
  }

  /** Contents with some bytes written over them; a gap is filled with zeros. */
  function Overwritten(d: content, offset: nat, data: bytes): (r: content)
    requires offset + |data| < 0x1_0000_0000_0000_0000
    ensures |r| == if data == [] || offset + |data| <= |d| then |d| else offset + |data|
    ensures forall i :: 0 <= i < |r| ==>
              r[i] == if offset <= i < offset + |data| then data[i - offset] else if i < |d| then d[i] else 0
  {
    if data == [] then d
    else
      var wide := if offset + |data| <= |d| then d else d + Zeros(offset + |data| - |d|);
      wide[..offset] + data + wide[offset + |data|..]
  }

  /** Writing takes as much as it takes at once.  What is not written to stable storage at once, mode 0, is loose. */
  function WriteAt(fs: Fs, h: bytes, s: Stateid4, offset: u64, stable: u32, data: bytes, most: u32): Answer<(Fs, u32)> {
    var n :- FileAt(fs, h);
    var _ :- CheckState(fs, h, s, 1);
    var k: u32 := Least(|data|, most);
    if offset + k >= 0x1_0000_0000_0000_0000 then Bad(NFS4ERR_FBIG)
    else
      var there := Positions(offset, offset + k);
      var loose := if stable == 0 then n.loose + there else n.loose - there;
      Good((fs.(nodes := fs.nodes[h := File(Overwritten(n.data, offset, data[..k]), loose, n.attrs)]), k))
  }

  /** COMMIT fastens a range, up to the end if no size is given. */
  function FlushAt(fs: Fs, h: bytes, offset: u64, count: u32): Answer<Fs> {
    var n :- FileAt(fs, h);
    Good(fs.(nodes := fs.nodes[h := n.(loose := set p | p in n.loose && !(offset <= p && (count == 0 || p < offset + count)))]))
  }

  function RenewAt(fs: Fs, clientid: u64): Answer<()> {
    if clientid in fs.clients then Good(()) else Bad(NFS4ERR_STALE_CLIENTID)
  }
}
