/** What the calls on an object do to each other: attributes that are set are the ones that are shown, bytes that are
    written are the ones that are read, and a state id is good for what it was opened for and until it is closed. */
module Effects {
  import opened Wire
  import opened Bitmap
  import opened Attributes
  import opened Ops
  import opened FileTrees
  import opened Objects
  import opened Namespace

  /* ----- attributes ----- */

  /** The attributes that a caller has set are those that he sees. */
  predicate SeenAs(f: Fattr4, a: Sattr4) {
    && (a.mode.Some? ==> f.mode == a.mode)
    && (a.owner.Some? ==> f.owner == a.owner)
    && (a.ownerGroup.Some? ==> f.ownerGroup == a.ownerGroup)
    && (a.timeAccess.Some? ==> f.timeAccess == a.timeAccess)
    && (a.timeModify.Some? ==> f.timeModify == a.timeModify)
    && (a.size.Some? ==> f.size == a.size)
  }

  function ShownOf(n: Node): Fattr4 { Exposed(Chosen(AttrsOf(n), ShownIds())) }

  lemma FieldsOverlaid(m: Attrs, a: Sattr4)
    ensures var o := Overlay(m, a);
            && (a.mode.Some? ==> Field(o, 33) == WordOf(a.mode)) && (a.owner.Some? ==> Field(o, 36) == TextOf(a.owner))
            && (a.ownerGroup.Some? ==> Field(o, 37) == TextOf(a.ownerGroup))
            && (a.timeAccess.Some? ==> Field(o, 47) == TimeOf(a.timeAccess))
            && (a.timeModify.Some? ==> Field(o, 53) == TimeOf(a.timeModify))
            && forall j :: j !in {33, 36, 37, 47, 53} ==> Field(o, j) == Field(m, j)
  {
    hide AddIf, WordOf, TextOf, TimeOf, Field;
    assert forall o: Option<u32> :: o.Some? ==> WordOf(o).Some? by { IsThere(); }
    assert forall o: Option<bytes> :: o.Some? ==> TextOf(o).Some? by { IsThere(); }
    assert forall o: Option<Nfstime4> :: o.Some? ==> TimeOf(o).Some? by { IsThere(); }
  }

  lemma IsThere()
    ensures forall o: Option<u32> :: o.Some? ==> WordOf(o).Some?
    ensures forall o: Option<bytes> :: o.Some? ==> TextOf(o).Some?
    ensures forall o: Option<Nfstime4> :: o.Some? ==> TimeOf(o).Some?
  {
  }

  lemma ShownField(n: Node, id: nat)
    requires id in ShownIds() && id != 1 && (n.File? ==> id != 4)
    ensures Field(Chosen(AttrsOf(n), ShownIds()), id) == Field(n.attrs, id)
  {
  }

  /** An object whose attributes have been set shows them, and is of the type and the size that it has. */
  lemma ChangedShows(n: Node, a: Sattr4)
    requires Changed(n, a).Good?
    ensures var n' := Changed(n, a).value;
            SeenAs(ShownOf(n'), a) && ShownOf(n').kind == Some(TypeOf(n)) && (n.File? ==> ShownOf(n').size == Some(|n'.data|))
  {
    hide Overlay, AttrsOf, Resized;
    var n' := Changed(n, a).value;
    FieldsOverlaid(n.attrs, a);
    ShownField(n', 33);
    ShownField(n', 36);
    ShownField(n', 37);
    ShownField(n', 47);
    ShownField(n', 53);
    TypeShown(n');
    FieldsShown(Chosen(AttrsOf(n'), ShownIds()));
  }

  lemma TypeShown(n: Node)
    ensures Field(Chosen(AttrsOf(n), ShownIds()), 1) == Some(WordVal(TypeOf(n)))
    ensures n.File? ==> Field(Chosen(AttrsOf(n), ShownIds()), 4) == Some(LongVal(|n.data|))
  {
  }

  lemma FieldsShown(m: Attrs)
    ensures var f := Exposed(m);
            && (forall w: u32 :: Field(m, 1) == Some(WordVal(w)) ==> f.kind == Some(w))
            && (forall l: u64 :: Field(m, 4) == Some(LongVal(l)) ==> f.size == Some(l))
            && (forall o: Option<u32> :: o.Some? && Field(m, 33) == WordOf(o) ==> f.mode == o)
            && (forall o: Option<bytes> :: o.Some? && Field(m, 36) == TextOf(o) ==> f.owner == o)
            && (forall o: Option<bytes> :: o.Some? && Field(m, 37) == TextOf(o) ==> f.ownerGroup == o)
            && (forall o: Option<Nfstime4> :: o.Some? && Field(m, 47) == TimeOf(o) ==> f.timeAccess == o)
            && (forall o: Option<Nfstime4> :: o.Some? && Field(m, 53) == TimeOf(o) ==> f.timeModify == o)
  {
  }

  /** A directory or a link is made with the attributes of the call, and shows them when it is inspected. */
  lemma MadeShows(fs: Fs, c: FsCall, spare: Spare, spare2: Spare)
    requires (c.MakeDir? || c.MakeLink?) && Wanted(fs, c, spare).Good? && spare.handle != []
    ensures var after := Wanted(fs, c, spare).value.fs;
            var seen := Wanted(after, Inspect(spare.handle), spare2);
            && seen.Good? && seen.value.said.Values? && seen.value.fs == after
            && SeenAs(Exposed(seen.value.said.attrs), c.attrs)
            && Exposed(seen.value.said.attrs).kind == Some(if c.MakeDir? then 2 else 5)
            && (c.MakeLink? ==> Wanted(after, ReadTarget(spare.handle), spare2) == Good(Done(after, None, Target(c.target))))
  {
    hide Overlay, AttrsOf, SeenAs, Exposed, Chosen;
    var n := if c.MakeDir? then Dir(map[], spare.attrs) else Link(c.target, spare.attrs);
    ChangedShows(n, c.attrs);
  }

  /** What a caller sees who inspects an object. */
  ghost predicate Shows(fs: Fs, fh: bytes, spare: Spare, a: Sattr4) {
    var seen := Wanted(fs, Inspect(fh), spare);
    seen.Good? && seen.value.said.Values? && SeenAs(Exposed(seen.value.said.attrs), a)
  }

  /** Attributes that were set are shown, and nothing but the object has changed. */
  lemma ChangeShows(fs: Fs, fh: bytes, a: Sattr4, spare: Spare, spare2: Spare)
    requires Wanted(fs, Change(fh, a), spare).Good?
    ensures var after, h := Wanted(fs, Change(fh, a), spare).value.fs, Resolve(fs, fh).value;
            && Shows(after, fh, spare2, a)
            && h in after.nodes && after == fs.(nodes := fs.nodes[h := after.nodes[h]])
  {
    hide Overlay, AttrsOf, SeenAs, Exposed, Chosen, Resized;
    ChangedShows(fs.nodes[Resolve(fs, fh).value], a);
  }

  /* ----- contents ----- */

  function DataAt(fs: Fs, h: bytes): bytes { if h in fs.nodes && fs.nodes[h].File? then fs.nodes[h].data else [] }
  function LooseAt(fs: Fs, h: bytes): set<nat> { if h in fs.nodes && fs.nodes[h].File? then fs.nodes[h].loose else {} }

  /** What a write has taken is what a read of the same range returns, whoever reads. */
  lemma WriteThenRead(fs: Fs, fh: bytes, s: Stateid4, offset: u64, stable: u32, data: bytes, spare: Spare,
                      s2: Stateid4, spare2: Spare)
    requires Wanted(fs, WriteFile(fh, s, offset, stable, data), spare).Good?
    requires CheckState(fs, Resolve(fs, fh).value, s2, 0).Good?
    ensures var w := Wanted(fs, WriteFile(fh, s, offset, stable, data), spare).value;
            var k := Least(|data|, spare.most);
            && w.said == Count(k, stable)
            && (spare2.most >= k ==>
                  var r := Wanted(w.fs, ReadFile(fh, s2, offset, k), spare2);
                  r.Good? && r.value.said.Contents? && r.value.said.data == data[..k] && r.value.fs == w.fs)
  {
    hide CheckState, Overwritten, Positions;
    var h := Resolve(fs, fh).value;
    var w := Wanted(fs, WriteFile(fh, s, offset, stable, data), spare).value;
    assert CheckState(w.fs, h, s2, 0) == CheckState(fs, h, s2, 0) by { SameOpens(fs, w.fs, h, s2); }
    RangeRead(fs.nodes[h].data, offset, data[..Least(|data|, spare.most)]);
  }

  lemma RangeRead(d: content, offset: nat, data: bytes)
    requires offset + |data| < 0x1_0000_0000_0000_0000
    ensures var after := Overwritten(d, offset, data);
            if offset >= |after| then data == []
            else Least(offset + |data|, |after|) == offset + |data| && after[offset..offset + |data|] == data
  {
    hide Overwritten;
  }

  /** All other bytes are as before, and a gap before the range is zeros. */
  lemma WriteLeavesOthers(fs: Fs, fh: bytes, s: Stateid4, offset: u64, stable: u32, data: bytes, spare: Spare)
    requires Wanted(fs, WriteFile(fh, s, offset, stable, data), spare).Good?
    ensures var h := Resolve(fs, fh).value;
            var w := Wanted(fs, WriteFile(fh, s, offset, stable, data), spare).value;
            var (d, d') := (DataAt(fs, h), DataAt(w.fs, h));
            && |d| <= |d'|
            && (forall p: nat :: p < |d| && !(offset <= p < offset + w.said.n) ==> d'[p] == d[p])
            && (forall p: nat :: |d| <= p < offset && p < |d'| ==> d'[p] == 0)
            && w.fs == fs.(nodes := fs.nodes[h := w.fs.nodes[h]]) && w.fs.nodes[h].attrs == fs.nodes[h].attrs
  {
    hide CheckState, Overwritten, Positions;
  }

  lemma SameOpens(fs: Fs, fs': Fs, h: bytes, s: Stateid4)
    requires fs'.opens == fs.opens
    ensures CheckState(fs', h, s, 0) == CheckState(fs, h, s, 0)
  {
  }

  /** What was written and committed is on stable storage, and so is what was written for stable storage at once. */
  lemma WriteThenFlush(fs: Fs, fh: bytes, s: Stateid4, offset: u64, stable: u32, data: bytes, spare: Spare,
                       count: u32, spare2: Spare)
    requires Wanted(fs, WriteFile(fh, s, offset, stable, data), spare).Good?
    ensures var h := Resolve(fs, fh).value;
            var w := Wanted(fs, WriteFile(fh, s, offset, stable, data), spare).value;
            var f := Wanted(w.fs, FlushFile(fh, offset, count), spare2);
            && (stable != 0 ==> forall p :: offset <= p < offset + w.said.n ==> p !in LooseAt(w.fs, h))
            && (stable == 0 ==> forall p :: offset <= p < offset + w.said.n ==> p in LooseAt(w.fs, h))
            && f.Good? && DataAt(f.value.fs, h) == DataAt(w.fs, h)
            && (count == 0 || count >= w.said.n ==> forall p :: offset <= p < offset + w.said.n ==> p !in LooseAt(f.value.fs, h))
            && (forall p :: p in LooseAt(w.fs, h) && p < offset ==> p in LooseAt(f.value.fs, h))
  {
    hide CheckState, Overwritten;
  }

  /* ----- state ids ----- */

  /** A file that is open for writing only is not read, and one that is open for reading only is not written. */
  lemma AccessKept(fs: Fs, fh: bytes, s: Stateid4, offset: u64, count: u32, stable: u32, data: bytes, spare: Spare)
    requires s != NoState() && s in fs.opens && fs.opens[s].confirmed && fh in fs.nodes && fs.nodes[fh].File? && fh != []
    requires fs.opens[s].fh == fh
    ensures fs.opens[s].access == 1 ==>
              && Wanted(fs, ReadFile(fh, s, offset, count), spare).Good?
              && Wanted(fs, WriteFile(fh, s, offset, stable, data), spare) == Bad(NFS4ERR_OPENMODE)
    ensures fs.opens[s].access == 2 ==>
              && Wanted(fs, ReadFile(fh, s, offset, count), spare) == Bad(NFS4ERR_OPENMODE)
              && (offset + |data| < 0x1_0000_0000_0000_0000 ==> Wanted(fs, WriteFile(fh, s, offset, stable, data), spare).Good?)
  {
    hide Overwritten, Positions;
    assert Bit(1, 0) && !Bit(1, 1) && !Bit(2, 0) && Bit(2, 1) by {
      assert Bit(2, 1) == Bit(1, 0) && Bit(1, 1) == Bit(0, 0);
    }
  }

  /** After a file was closed its state id is good for nothing. */
  lemma ClosedIsGone(fs: Fs, fh: bytes, seqid: u32, s: Stateid4, offset: u64, count: u32, stable: u32, data: bytes, spare: Spare)
    requires Wanted(fs, CloseFile(fh, seqid, s), spare).Good? && s != NoState()
    ensures var after := Wanted(fs, CloseFile(fh, seqid, s), spare).value.fs;
            && after == fs.(opens := fs.opens - {s})
            && Wanted(after, ReadFile(fh, s, offset, count), spare).Bad?
            && Wanted(after, WriteFile(fh, s, offset, stable, data), spare).Bad?
            && Wanted(after, CloseFile(fh, seqid, s), spare) == Bad(NFS4ERR_BAD_STATEID)
  {
    hide Overwritten, Positions;
  }

  /** The state id from before a confirmation is good for nothing either. */
  lemma ConfirmedIsNew(fs: Fs, fh: bytes, s: Stateid4, seqid: u32, offset: u64, count: u32, spare: Spare, spare2: Spare)
    requires Wanted(fs, ConfirmFile(fh, s, seqid), spare).Good? && s != spare.stateid && s != NoState()
    ensures var after := Wanted(fs, ConfirmFile(fh, s, seqid), spare).value.fs;
            && Wanted(fs, ReadFile(fh, s, offset, count), spare2).Bad?
            && Wanted(after, ReadFile(fh, s, offset, count), spare2).Bad?
            && spare.stateid in after.opens && after.opens[spare.stateid] == fs.opens[s].(confirmed := true)
  {
  }
}
