// AtomicWrite: replacing a file by writing a temporary one beside it, flushing
// it and renaming it over the destination. Every system call may fail, and
// after every system call the process may die or the power may go.
module AtomicFile {
  import opened Base

  // `flushed` says whether data, mode and owner have reached the disk.
  datatype Inode = Inode(data: string, mode: nat, uid: int, gid: int, flushed: bool)

  datatype Entry = File(ino: nat) | Special

  // What the kernel holds at one moment.
  datatype Snapshot = Snapshot(names: map<string, Entry>, inodes: map<nat, Inode>)

  // ---- what must hold of every moment ----

  ghost predicate ShowsOld(s: Snapshot, before: Snapshot, base: string) {
    && (base in s.names <==> base in before.names)
    && (base in s.names ==> s.names[base] == before.names[base])
  }

  ghost predicate ShowsNew(s: Snapshot, base: string, ino: nat) {
    base in s.names && s.names[base] == File(ino)
  }

  ghost predicate Complete(s: Snapshot, ino: nat, file: Inode) {
    ino in s.inodes && s.inodes[ino] == file && file.flushed
  }

  // The destination is the old file or the complete new one, no old file has
  // been written to, and once the new file shows it never goes away.
  ghost predicate AtomicTrace(seen: seq<Snapshot>, before: Snapshot, base: string, ino: nat, file: Inode) {
    && (forall i :: 0 <= i < |seen| ==>
          && (forall n :: n in before.inodes ==> n in seen[i].inodes && seen[i].inodes[n] == before.inodes[n])
          && (ShowsOld(seen[i], before, base) || (ShowsNew(seen[i], base, ino) && Complete(seen[i], ino, file))))
    && (forall i, j :: 0 <= i <= j < |seen| && ShowsNew(seen[i], base, ino) && Complete(seen[i], ino, file) ==>
          ShowsNew(seen[j], base, ino) && Complete(seen[j], ino, file))
  }

  // A moment before the rename.
  ghost predicate Unpublished(s: Snapshot, before: Snapshot, base: string) {
    && ShowsOld(s, before, base)
    && forall n :: n in before.inodes ==> n in s.inodes && s.inodes[n] == before.inodes[n]
  }

  ghost predicate AllUnpublished(seen: seq<Snapshot>, before: Snapshot, base: string) {
    forall i :: 0 <= i < |seen| ==> Unpublished(seen[i], before, base)
  }

  lemma UnpublishedIsAtomic(seen: seq<Snapshot>, before: Snapshot, base: string, ino: nat, file: Inode)
    requires AllUnpublished(seen, before, base)
    requires base in before.names ==> before.names[base] != File(ino)
    ensures AtomicTrace(seen, before, base, ino, file)
  {
  }

  lemma PublishedIsAtomic(seen: seq<Snapshot>, last: Snapshot, before: Snapshot, base: string, ino: nat, file: Inode)
    requires AllUnpublished(seen, before, base)
    requires base in before.names ==> before.names[base] != File(ino)
    requires ShowsNew(last, base, ino) && Complete(last, ino, file)
    requires forall n :: n in before.inodes ==> n in last.inodes && last.inodes[n] == before.inodes[n]
    ensures AtomicTrace(seen + [last], before, base, ino, file)
  {
    UnpublishedIsAtomic(seen, before, base, ino, file);
  }

  // A moment that differs from a directory only in one inode.
  ghost predicate SameBut(s: Snapshot, dir: Snapshot, ino: nat) {
    && s.names == dir.names && ino in s.inodes
    && forall n :: n in dir.inodes && n != ino ==> n in s.inodes && s.inodes[n] == dir.inodes[n]
  }

  // Until it has its final mode and owner, which comes with the whole of its
  // data, the new inode is the writing process's alone: mode 0600.
  ghost predicate Guarded(moments: seq<Snapshot>, ino: nat, file: Inode) {
    forall i :: 0 <= i < |moments| && ino in moments[i].inodes ==>
      moments[i].inodes[ino].mode == 384 || moments[i].inodes[ino].(flushed := true) == file
  }

  ghost predicate Filling(seen: seq<Snapshot>, dir: Snapshot, ino: nat) {
    forall i :: 0 <= i < |seen| ==> SameBut(seen[i], dir, ino)
  }

  lemma FillingIsUnpublished(seen: seq<Snapshot>, dir: Snapshot, before: Snapshot, base: string, ino: nat)
    requires Filling(seen, dir, ino) && Unpublished(dir, before, base) && ino !in before.inodes
    ensures AllUnpublished(seen, before, base)
  {
  }

  // After a loss of power at the end of `seen` the directory may be the one of
  // any moment since it was last flushed. Flushed inodes keep what they hold
  // at the end, others hold anything.
  ghost predicate PowerLoss(seen: seq<Snapshot>, flushedAt: nat, after: Snapshot) {
    && seen != []
    && (exists i :: flushedAt <= i < |seen| && after.names == seen[i].names)
    && (forall n :: n in seen[|seen| - 1].inodes && seen[|seen| - 1].inodes[n].flushed ==>
          n in after.inodes && after.inodes[n] == seen[|seen| - 1].inodes[n])
  }

  // The name shows what it showed at this earlier moment, and if that is a file
  // which had been flushed before the call, it is intact.
  ghost predicate KeepsOld(after: Snapshot, earlier: Snapshot, before: Snapshot, base: string) {
    && ShowsOld(after, earlier, base)
    && (base in earlier.names && earlier.names[base].File? ==>
          var n := earlier.names[base].ino;
          n in before.inodes && before.inodes[n].flushed ==> Complete(after, n, before.inodes[n]))
  }

  // What a loss of power leaves at a name: the complete new file, or what the
  // name showed when the call began or, as far as the directory had not been
  // flushed by then, at some moment since it last was. Nothing, if there was
  // nothing; never a torn file.
  ghost predicate OldOrNew(after: Snapshot, pre: seq<Snapshot>, flushedAt: nat, base: string, ino: nat, file: Inode)
    requires pre != []
  {
    || (exists j :: flushedAt <= j < |pre| && KeepsOld(after, pre[j], pre[|pre| - 1], base))
    || (ShowsNew(after, base, ino) && Complete(after, ino, file))
  }

  // Losing power at any moment of an atomic replacement, from its beginning on.
  lemma PowerLossIsAtomic(pre: seq<Snapshot>, moments: seq<Snapshot>, flushedAt: nat, cut: nat, after: Snapshot,
                          base: string, ino: nat, file: Inode)
    requires pre != [] && flushedAt < |pre| <= cut <= |pre| + |moments|
    requires AtomicTrace(moments, pre[|pre| - 1], base, ino, file)
    requires PowerLoss((pre + moments)[..cut], flushedAt, after)
    ensures OldOrNew(after, pre, flushedAt, base, ino, file)
  {
    var seen, before := pre + moments, pre[|pre| - 1];
    var i :| flushedAt <= i < cut && after.names == seen[..cut][i].names;
    var last := seen[cut - 1];
    assert last == seen[..cut][cut - 1];
    OldInodesSurvive(moments, before, base, ino, file, last, after, cut - |pre|);
    if i < |pre| {
      assert seen[i] == pre[i];
      assert KeepsOld(after, pre[i], before, base);
    } else {
      var k := i - |pre|;
      assert seen[i] == moments[k];
      if ShowsOld(moments[k], before, base) {
        assert KeepsOld(after, before, before, base);
      } else {
        assert last == moments[cut - 1 - |pre|];
      }
    }
  }

  lemma OldInodesSurvive(moments: seq<Snapshot>, before: Snapshot, base: string, ino: nat, file: Inode,
                         last: Snapshot, after: Snapshot, done: nat)
    requires AtomicTrace(moments, before, base, ino, file) && done <= |moments|
    requires last == if done == 0 then before else moments[done - 1]
    requires forall n :: n in last.inodes && last.inodes[n].flushed ==>
               n in after.inodes && after.inodes[n] == last.inodes[n]
    ensures forall n :: n in before.inodes && before.inodes[n].flushed ==> Complete(after, n, before.inodes[n])
  {
  }

  // The same for every moment and every outcome.
  ghost predicate Survives(pre: seq<Snapshot>, moments: seq<Snapshot>, flushedAt: nat,
                           base: string, ino: nat, file: Inode)
    requires pre != []
  {
    forall cut: nat, after ::
      |pre| <= cut <= |pre| + |moments| && PowerLoss((pre + moments)[..cut], flushedAt, after) ==>
        OldOrNew(after, pre, flushedAt, base, ino, file)
  }

  lemma AtomicTraceSurvives(pre: seq<Snapshot>, moments: seq<Snapshot>, flushedAt: nat,
                            base: string, ino: nat, file: Inode)
    requires pre != [] && flushedAt < |pre| && AtomicTrace(moments, pre[|pre| - 1], base, ino, file)
    ensures Survives(pre, moments, flushedAt, base, ino, file)
  {
    forall cut: nat, after | |pre| <= cut <= |pre| + |moments| && PowerLoss((pre + moments)[..cut], flushedAt, after)
      ensures OldOrNew(after, pre, flushedAt, base, ino, file)
    {
      PowerLossIsAtomic(pre, moments, flushedAt, cut, after, base, ino, file);
    }
  }

  // No loss of power from now on brings the old file back.
  ghost predicate Durable(seen: seq<Snapshot>, flushedAt: nat, base: string, ino: nat, file: Inode) {
    forall after :: PowerLoss(seen, flushedAt, after) ==> ShowsNew(after, base, ino) && Complete(after, ino, file)
  }

  // Once the directory was flushed with the new file in it, whatever else the
  // replacement still does.
  lemma FlushedMeansNew(pre: seq<Snapshot>, moments: seq<Snapshot>, flushedAt: nat, before: Snapshot,
                        base: string, ino: nat, file: Inode)
    requires AtomicTrace(moments, before, base, ino, file)
    requires |pre| <= flushedAt < |pre| + |moments|
    requires var s := moments[flushedAt - |pre|]; ShowsNew(s, base, ino) && Complete(s, ino, file)
    ensures Durable(pre + moments, flushedAt, base, ino, file)
  {
    var seen := pre + moments;
    forall after | PowerLoss(seen, flushedAt, after)
      ensures ShowsNew(after, base, ino) && Complete(after, ino, file)
    {
      var i :| flushedAt <= i < |seen| && after.names == seen[i].names;
      assert seen[i] == moments[i - |pre|];
      assert seen[|seen| - 1] == moments[|moments| - 1];
    }
  }

  // ---- the file system calls ----

  class Directory {
    var names: map<string, Entry>
    var inodes: map<nat, Inode>
    const fails: nat -> bool // whether the n-th call fails
    var calls: nat
    var nextIno: nat // above every inode in use
    const uid: int // of the writing process
    const gid: int
    ghost var seen: seq<Snapshot>
    ghost var flushedAt: nat

    ghost function Now(): Snapshot
      reads this
    {
      Snapshot(names, inodes)
    }

    ghost predicate Valid()
      reads this
    {
      && seen != [] && seen[|seen| - 1] == Now() && flushedAt < |seen|
      && (forall n :: n in inodes ==> n < nextIno)
      && (forall name :: name in names && names[name].File? ==> names[name].ino in inodes)
    }

    constructor (names: map<string, Entry>, inodes: map<nat, Inode>, nextIno: nat,
                 fails: nat -> bool, uid: int, gid: int)
      requires forall n :: n in inodes ==> n < nextIno
      requires forall name :: name in names && names[name].File? ==> names[name].ino in inodes
      ensures Valid() && Now() == Snapshot(names, inodes) && seen == [Now()]
      ensures this.fails == fails && this.uid == uid && this.gid == gid
    {
      this.names, this.inodes, this.fails, this.uid, this.gid := names, inodes, fails, uid, gid;
      this.nextIno, calls, seen, flushedAt := nextIno, 0, [Snapshot(names, inodes)], 0;
    }

    method Call() returns (ok: bool)
      modifies `calls
      ensures ok == !fails(old(calls)) && calls == old(calls) + 1
    {
      ok := !fails(calls);
      calls := calls + 1;
    }

    // openat with O_CREAT|O_EXCL, mode 0600.
    method Create(name: string) returns (ok: bool, taken: bool, ino: nat)
      requires Valid()
      modifies this
      ensures Valid() && old(seen) <= seen && flushedAt == old(flushedAt) && calls == old(calls) + 1
      ensures ok == (!fails(old(calls)) && name !in old(names)) && taken == (!fails(old(calls)) && name in old(names))
      ensures !ok ==> seen == old(seen) && Now() == old(Now())
      ensures ok ==> name !in old(names) && ino !in old(inodes) && seen == old(seen) + [Now()]
      ensures ok ==> Now() == Snapshot(old(names)[name := File(ino)],
                                       old(inodes)[ino := Inode("", 0x180, uid, gid, false)])
    {
      ok := Call();
      taken, ino := false, 0;
      if !ok { return; }
      if name in names {
        ok, taken := false, true;
        return;
      }
      ino := nextIno;
      nextIno := nextIno + 1;
      inodes := inodes[ino := Inode("", 0x180, uid, gid, false)];
      names := names[name := File(ino)];
      seen := seen + [Now()];
    }

    // None of the calls from this one on, up to now, failed.
    predicate NoneFailed(from: nat)
      reads this
    {
      forall n :: from <= n < calls ==> !fails(n)
    }

    // Since the moments `pre` only this inode of the directory `dir` has changed.
    ghost predicate Only(ino: nat, file: Inode, dir: Snapshot, pre: seq<Snapshot>, moments: seq<Snapshot>)
      reads this
    {
      && Valid() && seen == pre + moments && moments != [] && SameBut(Now(), dir, ino)
      && Filling(moments, dir, ino) && Guarded(moments, ino, file)
    }

    // Any change of one inode; a failed one may have been done in part.
    method Change(ino: nat, done: Inode, partial: Inode, ghost file: Inode,
                  ghost dir: Snapshot, ghost pre: seq<Snapshot>, ghost moments: seq<Snapshot>)
      returns (ok: bool, ghost after: seq<Snapshot>)
      requires Only(ino, file, dir, pre, moments)
      requires forall f :: f in [done, partial] ==> f.mode == 384 || f.(flushed := true) == file
      modifies this
      ensures Only(ino, file, dir, pre, after) && flushedAt == old(flushedAt) && calls == old(calls) + 1
      ensures ok == !fails(old(calls)) && inodes[ino] == if ok then done else partial
    {
      ok := Call();
      inodes := inodes[ino := if ok then done else partial];
      seen := seen + [Now()];
      after := moments + [Now()];
      assert seen == pre + after;
    }

    method Rename(from: string, to: string) returns (ok: bool)
      requires Valid() && from in names
      modifies this
      ensures Valid() && flushedAt == old(flushedAt) && inodes == old(inodes)
      ensures calls == old(calls) + 1 && ok == !fails(old(calls))
      ensures if ok then seen == old(seen) + [Now()] && names == (old(names) - {from})[to := old(names)[from]]
              else seen == old(seen) && names == old(names)
    {
      ok := Call();
      if ok {
        names := (names - {from})[to := names[from]];
        seen := seen + [Now()];
      }
    }

    method Unlink(name: string) returns (ok: bool)
      requires Valid()
      modifies this
      ensures Valid() && flushedAt == old(flushedAt) && inodes == old(inodes)
      ensures calls == old(calls) + 1 && ok == !fails(old(calls))
      ensures if ok then seen == old(seen) + [Now()] && names == old(names) - {name}
              else seen == old(seen) && names == old(names)
    {
      ok := Call();
      if ok {
        names := names - {name};
        seen := seen + [Now()];
      }
    }

    method FsyncDirectory() returns (ok: bool)
      requires Valid()
      modifies this
      ensures Valid() && seen == old(seen) && Now() == old(Now())
      ensures calls == old(calls) + 1 && ok == !fails(old(calls))
      ensures flushedAt == if ok then |seen| - 1 else old(flushedAt)
    {
      ok := Call();
      if ok {
        flushedAt := |seen| - 1;
      }
    }

    // ---- AtomicWrite ----

    // The file a complete write leaves.
    function Final(data: string, mode: nat, owner: int, group: int): Inode {
      Inode(data, mode, if owner == -1 then uid else owner, if group == -1 then gid else group, true)
    }

    // The owner, unless it is to stay.
    method Own(ino: nat, owner: int, group: int, ghost file: Inode,
               ghost dir: Snapshot, ghost pre: seq<Snapshot>, ghost start: seq<Snapshot>)
      returns (ok: bool, ghost moments: seq<Snapshot>)
      requires Only(ino, file, dir, pre, start) && inodes[ino].mode == 384
      modifies this
      ensures Only(ino, file, dir, pre, moments) && flushedAt == old(flushedAt) && calls >= old(calls)
      ensures ok == NoneFailed(old(calls)) && (!ok ==> calls > old(calls) && fails(calls - 1))
      ensures ok ==>
                var f := old(inodes[ino]);
                inodes[ino] == f.(uid := if owner == -1 then f.uid else owner,
                                  gid := if group == -1 then f.gid else group)
    {
      ok, moments := true, start;
      var f := inodes[ino];
      if owner != -1 || group != -1 {
        var uid, gid := if owner == -1 then f.uid else owner, if group == -1 then f.gid else group;
        ok, moments := Change(ino, f.(uid := uid, gid := gid), f, file, dir, pre, start);
      }
    }

    // The mode, the flush, and the close.
    method Settle(ino: nat, mode: nat, ghost file: Inode,
                  ghost dir: Snapshot, ghost pre: seq<Snapshot>, ghost start: seq<Snapshot>)
      returns (ok: bool, ghost moments: seq<Snapshot>)
      requires Only(ino, file, dir, pre, start) && inodes[ino].mode == 384
      requires inodes[ino].(mode := mode, flushed := true) == file
      modifies this
      ensures Only(ino, file, dir, pre, moments) && flushedAt == old(flushedAt) && calls > old(calls)
      ensures ok == NoneFailed(old(calls)) && (!ok ==> fails(calls - 1))
      ensures ok ==> inodes[ino] == file
    {
      var f := inodes[ino];
      ok, moments := Change(ino, f.(mode := mode), f, file, dir, pre, start);
      if !ok { return; }
      f := inodes[ino];
      ok, moments := Change(ino, f.(flushed := true), f, file, dir, pre, moments);
      if !ok { return; }
      ok := Call(); // close
    }

    // Fills the temporary file: write, chown, chmod, fsync, close. However it
    // ends, only this inode has changed.
    method Fill(ino: nat, data: string, mode: nat, owner: int, group: int, written: nat,
                ghost dir: Snapshot, ghost pre: seq<Snapshot>, ghost start: seq<Snapshot>)
      returns (ok: bool, ghost moments: seq<Snapshot>)
      requires Only(ino, Final(data, mode, owner, group), dir, pre, start) && written <= |data|
      requires inodes[ino] == Inode("", 0x180, uid, gid, false)
      modifies this
      ensures Only(ino, Final(data, mode, owner, group), dir, pre, moments)
      ensures flushedAt == old(flushedAt) && calls > old(calls)
      ensures ok == NoneFailed(old(calls)) && (!ok ==> fails(calls - 1))
      ensures ok ==> inodes[ino] == Final(data, mode, owner, group)
    {
      ghost var file := Final(data, mode, owner, group);
      var f := inodes[ino];
      ok, moments := Change(ino, f.(data := data), f.(data := data[..written]), file, dir, pre, start);
      if !ok { return; }
      ok, moments := Own(ino, owner, group, file, dir, pre, moments);
      if !ok { return; }
      ok, moments := Settle(ino, mode, file, dir, pre, moments);
    }

    // Up to ten random names, each of which may be taken.
    method CreateTemp(temps: seq<string>) returns (ok: bool, temp: string, ino: nat)
      requires Valid() && |temps| == 10
      modifies this
      ensures Valid() && flushedAt == old(flushedAt) && calls > old(calls)
      ensures ok <==> NoneFailed(old(calls)) && exists i :: 0 <= i < 10 && temps[i] !in old(names)
      ensures !ok ==> seen == old(seen) && Now() == old(Now())
      ensures ok ==> temp in temps && temp !in old(names) && ino !in old(inodes) && seen == old(seen) + [Now()]
      ensures ok ==> Now() == Snapshot(old(names)[temp := File(ino)],
                                       old(inodes)[ino := Inode("", 0x180, uid, gid, false)])
    {
      var taken;
      ok, temp, ino := false, temps[0], 0;
      for i := 0 to 10
        invariant !ok && Valid() && calls == old(calls) + i && NoneFailed(old(calls))
        invariant forall j :: 0 <= j < i ==> temps[j] in old(names)
        invariant seen == old(seen) && Now() == old(Now()) && flushedAt == old(flushedAt)
      {
        temp := temps[i];
        ok, taken, ino := Create(temp);
        if ok || !taken { return; }
      }
    }

    // The file published: rename, and flush of the directory. The deferred
    // removal then finds nothing to remove.
    method Publish(base: string, temp: string, ghost ino: nat, ghost file: Inode,
                   ghost before: Snapshot, ghost pre: seq<Snapshot>, ghost start: seq<Snapshot>)
      returns (ok: bool, published: bool, ghost moments: seq<Snapshot>)
      requires Valid() && seen == pre + start && AllUnpublished(start, before, base)
      requires base != temp && temp !in before.names && names == before.names[temp := File(ino)]
      requires base in before.names ==> before.names[base] != File(ino)
      requires Complete(Now(), ino, file) && Unpublished(Now(), before, base) && Guarded(start, ino, file)
      modifies this
      ensures Valid() && seen == pre + moments && inodes == old(inodes) && Guarded(moments, ino, file)
      ensures published == !fails(old(calls)) && ok == NoneFailed(old(calls))
      ensures if published then calls == old(calls) + 2 else calls == old(calls) + 1
      ensures ok ==> flushedAt == |seen| - 1
      ensures if published
              then && moments == start + [Now()] && names == before.names[base := File(ino)]
                   && AtomicTrace(moments, before, base, ino, file)
              else moments == start && names == old(names) && flushedAt == old(flushedAt)
    {
      moments := start;
      published := Rename(temp, base);
      ok := published;
      if published {
        PublishedIsAtomic(moments, Now(), before, base, ino, file);
        moments := moments + [Now()];
        assert seen == pre + moments;
        assert names == before.names[base := File(ino)];
        ok := FsyncDirectory();
      }
    }

    // The deferred removal when nothing was published.
    method Discard(temp: string, ghost before: Snapshot, ghost base: string, ghost ino: nat, ghost file: Inode,
                   ghost pre: seq<Snapshot>, ghost start: seq<Snapshot>)
      returns (ghost moments: seq<Snapshot>)
      requires Valid() && seen == pre + start && AllUnpublished(start, before, base)
      requires temp !in before.names && names == before.names[temp := File(ino)] && base != temp
      requires base in before.names ==> before.names[base] != File(ino)
      requires Unpublished(Now(), before, base) && start != [] && Guarded(start, ino, file)
      modifies this
      ensures Valid() && seen == pre + moments && start <= moments && calls == old(calls) + 1
      ensures Guarded(moments, ino, file)
      ensures AtomicTrace(moments, before, base, ino, file)
      ensures names == if fails(calls - 1) then before.names[temp := File(ino)] else before.names
    {
      moments := start;
      assert seen[|seen| - 1] == start[|start| - 1];
      var removed := Unlink(temp);
      if removed {
        assert names == before.names;
        moments := moments + [Now()];
        assert seen == pre + moments;
      }
      UnpublishedIsAtomic(moments, before, base, ino, file);
    }

    // The temporary file filled; the destination is as it was.
    method Prepare(base: string, temp: string, ino: nat, data: string, mode: nat, owner: int, group: int,
                   written: nat, ghost before: Snapshot, ghost pre: seq<Snapshot>)
      returns (ok: bool, ghost moments: seq<Snapshot>)
      requires Valid() && written <= |data| && base != temp && temp !in before.names && ino !in before.inodes
      requires Now() == Snapshot(before.names[temp := File(ino)],
                                 before.inodes[ino := Inode("", 0x180, uid, gid, false)])
      requires seen == pre + [Now()]
      requires base in before.names ==> before.names[base] != File(ino)
      modifies this
      ensures Valid() && seen == pre + moments && moments != [] && flushedAt == old(flushedAt) && calls > old(calls)
      ensures names == before.names[temp := File(ino)] && Unpublished(Now(), before, base)
      ensures AllUnpublished(moments, before, base) && Guarded(moments, ino, Final(data, mode, owner, group))
      ensures ok == NoneFailed(old(calls)) && (!ok ==> fails(calls - 1))
      ensures ok ==> Complete(Now(), ino, Final(data, mode, owner, group))
    {
      ghost var created := Now();
      ok, moments := Fill(ino, data, mode, owner, group, written, created, pre, [created]);
      FillingIsUnpublished(moments, created, before, base, ino);
    }

    // Of all calls from this one on, the last failed, and it alone.
    predicate FlushFailed(from: nat)
      reads this
    {
      from < calls && fails(calls - 1) && forall n :: from <= n < calls - 1 ==> !fails(n)
    }

    // From the created temporary file to the end, deferred clean-up included:
    // the removal is the last call if nothing was published.
    method FillAndPublish(base: string, temp: string, ino: nat, data: string, mode: nat, owner: int, group: int,
                          written: nat, ghost before: Snapshot, ghost pre: seq<Snapshot>)
      returns (ok: bool, published: bool, ghost moments: seq<Snapshot>)
      requires Valid() && written <= |data| && base != temp && temp !in before.names && ino !in before.inodes
      requires Now() == Snapshot(before.names[temp := File(ino)],
                                 before.inodes[ino := Inode("", 0x180, uid, gid, false)])
      requires seen == pre + [Now()]
      requires base in before.names ==> before.names[base] != File(ino)
      modifies this
      ensures Valid() && seen == pre + moments && moments != [] && calls > old(calls)
      ensures AtomicTrace(moments, before, base, ino, Final(data, mode, owner, group))
      ensures Guarded(moments, ino, Final(data, mode, owner, group))
      ensures ok == NoneFailed(old(calls)) && (ok ==> published && flushedAt == |seen| - 1)
      ensures !ok ==> if published then FlushFailed(old(calls)) else exists n :: old(calls) <= n < calls - 1 && fails(n)
      ensures published ==> ShowsNew(Now(), base, ino) && Complete(Now(), ino, Final(data, mode, owner, group))
      ensures names == if published then before.names[base := File(ino)]
                       else if fails(calls - 1) then before.names[temp := File(ino)] else before.names
    {
      ghost var file := Final(data, mode, owner, group);
      ok, moments := Prepare(base, temp, ino, data, mode, owner, group, written, before, pre);
      published := false;
      if ok {
        ok, published, moments := Publish(base, temp, ino, file, before, pre, moments);
        if published { return; }
      }
      moments := Discard(temp, before, base, ino, file, pre, moments);
    }

    // Walking the parent directories, and a look at what is there.
    method Examine(base: string) returns (ok: bool)
      requires Valid()
      modifies `calls
      ensures calls > old(calls)
      ensures ok <==> NoneFailed(old(calls)) && !(base in names && names[base].Special?)
    {
      ok := Call();
      if !ok { return; }
      ok := Call(); // fstatat
      if base in names && names[base].Special? {
        ok := false;
      }
    }

    // Nothing is in the way: the destination is a regular file or absent, and one
    // of the ten names is not taken.
    predicate Free(base: string, temps: seq<string>, names: map<string, Entry>)
      requires |temps| == 10
    {
      !(base in names && names[base].Special?) && exists i :: 0 <= i < 10 && temps[i] !in names
    }

    // `temps` are the random names tried, `written` how much of a failing write
    // gets through. The results say whether the caller sees success, whether the
    // new file was published, and whether a temporary file was created, by which
    // name. Such a file stays behind exactly if nothing was published and its
    // removal, the last call of all, fails. The call succeeds exactly if nothing
    // is in the way and no system call fails. If it publishes and reports failure
    // nevertheless, it was the flush of the directory that failed, and that alone.
    method AtomicWrite(base: string, data: string, mode: nat, owner: int, group: int, temps: seq<string>, written: nat)
      returns (ok: bool, published: bool, created: bool, temp: string, ino: nat, ghost moments: seq<Snapshot>)
      requires Valid() && written <= |data|
      requires |temps| == 10 && base !in temps
      modifies this
      ensures Valid() && seen == old(seen) + moments && calls > old(calls)
      ensures AtomicTrace(moments, old(Now()), base, ino, Final(data, mode, owner, group))
      ensures Survives(old(seen), moments, old(flushedAt), base, ino, Final(data, mode, owner, group))
      ensures ok <==> NoneFailed(old(calls)) && Free(base, temps, old(names))
      ensures published && !ok ==> FlushFailed(old(calls))
      ensures !published && Free(base, temps, old(names)) ==> exists n :: old(calls) <= n < calls && fails(n)
      ensures ok ==> published && Durable(seen, flushedAt, base, ino, Final(data, mode, owner, group))
      ensures Guarded(moments, ino, Final(data, mode, owner, group))
      ensures published ==> created && Complete(Now(), ino, Final(data, mode, owner, group))
      ensures published ==>
                var f := inodes[ino];
                && f.data == data && f.mode == mode
                && f.uid == (if owner == -1 then uid else owner) && f.gid == (if group == -1 then gid else group)
      ensures created ==> temp in temps && temp !in old(names) && ino !in old(inodes)
      ensures names == if published then old(names)[base := File(ino)]
                       else if created && fails(calls - 1) then old(names)[temp := File(ino)] else old(names)
      ensures base in old(names) && old(names)[base].Special? ==> !published && moments == []
    {
      ghost var file := Final(data, mode, owner, group);
      published, created, temp, ino, moments := false, false, "", 0, [];
      ok := Examine(base);
      if ok {
        created, temp, ino := CreateTemp(temps);
        ok := created;
        if ok {
          ok, published, moments :=
            FillAndPublish(base, temp, ino, data, mode, owner, group, written, old(Now()), old(seen));
        }
      }
      AtomicTraceSurvives(old(seen), moments, old(flushedAt), base, ino, file);
      if ok {
        FlushedMeansNew(old(seen), moments, flushedAt, old(Now()), base, ino, file);
      }
    }
  }
}
