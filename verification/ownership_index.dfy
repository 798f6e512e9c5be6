/** The index from streams to the chunks they own, kept in step with the chunks' own stream fields. */
module OwnershipIndex {
  import opened ArenaTypes

  /** Identity of a stream's implementation object; NO_IMPL stands for the null pointer. */
  type Impl = int
  const NO_IMPL: Impl := 0

  datatype AssignResult = Assigned | NullImpl | MultipleOwners | MissingFromOwner

  /** Each live stream has its own, non-null implementation object. */
  ghost predicate FaithfulImpls(implOf: Stream -> Impl) {
    && (forall s, t {:trigger implOf(s), implOf(t)} :: implOf(s) == implOf(t) ==> s == t)
    && (forall s {:trigger implOf(s)} :: s != NO_STREAM ==> implOf(s) != NO_IMPL)
  }

  ghost predicate Registered(streamToChunks: map<Stream, set<Handle>>, s: Stream) {
    s in streamToChunks
  }

  ghost predicate Lists(streamToChunks: map<Stream, set<Handle>>, s: Stream, h: Handle) {
    s in streamToChunks && h in streamToChunks[s]
  }

  ghost predicate Owns(owner: map<Handle, Stream>, s: Stream, h: Handle) {
    h in owner && owner[h] == s
  }

  ghost predicate Reaches(implToStream: map<Impl, Stream>, i: Impl, s: Stream) {
    i in implToStream && implToStream[i] == s
  }

  /** Both tables describe the same owner map: sets are never empty, impl entries are one per owner. */
  ghost predicate Consistent(streamToChunks: map<Stream, set<Handle>>, implToStream: map<Impl, Stream>,
                             owner: map<Handle, Stream>, implOf: Stream -> Impl) {
    && (forall s, h {:trigger Lists(streamToChunks, s, h)} {:trigger Owns(owner, s, h)} ::
          Lists(streamToChunks, s, h) <==> Owns(owner, s, h))
    && (forall s {:trigger Registered(streamToChunks, s)} :: Registered(streamToChunks, s) ==>
          s != NO_STREAM && (exists h :: Lists(streamToChunks, s, h)) && Reaches(implToStream, implOf(s), s))
    && (forall i, s {:trigger Reaches(implToStream, i, s)} ::
          Reaches(implToStream, i, s) ==> Registered(streamToChunks, s) && implOf(s) == i)
  }

  lemma Element<T>(s: set<T>) returns (x: T)
    requires s != {}
    ensures x in s
  {
    x :| x in s;
  }

  lemma WithdrawKeepsConsistent(stc: map<Stream, set<Handle>>, its: map<Impl, Stream>, owner: map<Handle, Stream>,
                                implOf: Stream -> Impl, handle: Handle, s: Stream,
                                stc': map<Stream, set<Handle>>, its': map<Impl, Stream>)
    requires Consistent(stc, its, owner, implOf)
    requires Lists(stc, s, handle)
    requires var remaining := stc[s] - {handle};
             && (remaining == {} ==> stc' == stc - {s} && its' == its - {implOf(s)})
             && (remaining != {} ==> stc' == stc[s := remaining] && its' == its)
    ensures Consistent(stc', its', owner - {handle}, implOf)
  {
    assert Owns(owner, s, handle) && Registered(stc, s);
    assert Reaches(its, implOf(s), s);
    forall t, h
      ensures Lists(stc', t, h) <==> Owns(owner - {handle}, t, h)
    {
      assert Lists(stc, t, h) <==> Owns(owner, t, h);
      assert t == s ==> (Lists(stc', t, h) <==> h in stc[s] - {handle});
    }
    forall t | Registered(stc', t)
      ensures t != NO_STREAM && (exists h :: Lists(stc', t, h)) && Reaches(its', implOf(t), t)
    {
      assert Registered(stc, t);
      if t == s {
        var h := Element(stc[s] - {handle});
        assert Lists(stc', t, h);
      } else {
        var h :| Lists(stc, t, h);
        assert Lists(stc', t, h);
        assert Reaches(its, implOf(t), t);
      }
    }
    forall i, t | Reaches(its', i, t)
      ensures Registered(stc', t) && implOf(t) == i
    {
      assert Reaches(its, i, t);
    }
  }

  lemma InstallKeepsConsistent(stc: map<Stream, set<Handle>>, its: map<Impl, Stream>, owner: map<Handle, Stream>,
                               implOf: Stream -> Impl, handle: Handle, s: Stream)
    requires Consistent(stc, its, owner, implOf)
    requires s != NO_STREAM
    requires forall t :: Reaches(its, implOf(s), t) ==> t == s
    requires forall t :: Owns(owner, t, handle) ==> t == s
    ensures var chunks := if s in stc then stc[s] else {};
            Consistent(stc[s := chunks + {handle}], its[implOf(s) := s], owner[handle := s], implOf)
  {
    var chunks := if s in stc then stc[s] else {};
    var stc', its', owner' := stc[s := chunks + {handle}], its[implOf(s) := s], owner[handle := s];
    forall t, h
      ensures Lists(stc', t, h) <==> Owns(owner', t, h)
    {
      assert Lists(stc, t, h) <==> Owns(owner, t, h);
    }
    forall t | Registered(stc', t)
      ensures t != NO_STREAM && (exists h :: Lists(stc', t, h)) && Reaches(its', implOf(t), t)
    {
      if t == s {
        assert Lists(stc', t, handle);
      } else {
        assert Registered(stc, t);
        var h :| Lists(stc, t, h);
        assert Lists(stc', t, h);
        assert Reaches(its, implOf(t), t);
      }
    }
    forall i, t | Reaches(its', i, t)
      ensures Registered(stc', t) && implOf(t) == i
    {
      if !(i == implOf(s) && t == s) {
        assert Reaches(its, i, t);
      }
    }
  }

  class ArenaOwnershipIndex {
    var streamToChunks: map<Stream, set<Handle>>
    var implToStream: map<Impl, Stream>

    /** What the two tables stand for: the owner of every owned chunk. */
    ghost var owner: map<Handle, Stream>

    ghost predicate Valid(implOf: Stream -> Impl)
      reads this
    {
      Consistent(streamToChunks, implToStream, owner, implOf)
    }

    constructor (ghost implOf: Stream -> Impl)
      ensures Valid(implOf) && owner == map[]
    {
      streamToChunks := map[];
      implToStream := map[];
      owner := map[];
    }

    /**
     * Move a chunk from its old owner to a new one (either may be null). Every failed check leaves
     * the index as it was, and the checks fail exactly in the listed cases.
     */
    method Assign(handle: Handle, oldStream: Stream, oldImpl: Impl, newStream: Stream, newImpl: Impl,
                  ghost implOf: Stream -> Impl)
      returns (result: AssignResult)
      requires Valid(implOf)
      requires oldStream != NO_STREAM ==> oldImpl == implOf(oldStream)
      requires newStream != NO_STREAM ==> newImpl == implOf(newStream)
      requires forall s :: Owns(owner, s, handle) ==> s == oldStream
      modifies this
      ensures Valid(implOf)
      ensures result != Assigned ==>
        streamToChunks == old(streamToChunks) && implToStream == old(implToStream) && owner == old(owner)
      ensures result == Assigned ==>
        owner == if newStream == NO_STREAM then old(owner) - {handle} else old(owner)[handle := newStream]
      ensures result == NullImpl <==> newStream != NO_STREAM && newImpl == NO_IMPL
      ensures result == MultipleOwners <==>
        newStream != NO_STREAM && newImpl != NO_IMPL &&
        exists s, h :: Owns(old(owner), s, h) && s != newStream && implOf(s) == newImpl
      ensures result == MissingFromOwner ==>
        oldStream != newStream && oldStream != NO_STREAM && !Owns(old(owner), oldStream, handle)
      ensures oldStream != newStream && oldStream != NO_STREAM && !Owns(old(owner), oldStream, handle) ==>
        result != Assigned
    {
      if newStream != NO_STREAM && newImpl == NO_IMPL {
        return NullImpl;
      }
      assert forall s, h :: Owns(owner, s, h) ==> Lists(streamToChunks, s, h) && Registered(streamToChunks, s);
      if newStream != NO_STREAM && newImpl in implToStream && implToStream[newImpl] != newStream {
        ghost var s: Stream := implToStream[newImpl];
        assert Reaches(implToStream, newImpl, s);
        ghost var h :| Lists(streamToChunks, s, h);
        assert Owns(owner, s, h);
        return MultipleOwners;
      }
      assert newStream != NO_STREAM ==> forall s :: Reaches(implToStream, newImpl, s) ==> s == newStream;
      if oldStream != newStream && oldStream != NO_STREAM {
        if oldStream !in streamToChunks || handle !in streamToChunks[oldStream] {
          assert !Lists(streamToChunks, oldStream, handle);
          return MissingFromOwner;
        }
        Withdraw(handle, oldStream, oldImpl, implOf);
      }
      if newStream == NO_STREAM {
        assert forall s :: Owns(owner, s, handle) ==> Lists(streamToChunks, s, handle) && Registered(streamToChunks, s);
        assert handle in owner ==> Owns(owner, owner[handle], handle);
        return Assigned;
      }
      Install(handle, newStream, newImpl, implOf);
      return Assigned;
    }

    /** The middle of Assign: take the chunk out of its old owner's set, and drop a set that empties. */
    method Withdraw(handle: Handle, oldStream: Stream, oldImpl: Impl, ghost implOf: Stream -> Impl)
      requires Valid(implOf)
      requires oldImpl == implOf(oldStream)
      requires Lists(streamToChunks, oldStream, handle)
      modifies this
      ensures Valid(implOf)
      ensures owner == old(owner) - {handle}
      ensures forall i, s :: Reaches(implToStream, i, s) ==> old(Reaches(implToStream, i, s))
    {
      assert Owns(owner, oldStream, handle);
      assert Registered(streamToChunks, oldStream);
      ghost var was, implWas, ownerWas := streamToChunks, implToStream, owner;
      var remaining := streamToChunks[oldStream] - {handle};
      if remaining == {} {
        if oldImpl in implToStream && implToStream[oldImpl] == oldStream {
          implToStream := implToStream - {oldImpl};
        }
        streamToChunks := streamToChunks - {oldStream};
      } else {
        streamToChunks := streamToChunks[oldStream := remaining];
      }
      owner := owner - {handle};
      WithdrawKeepsConsistent(was, implWas, ownerWas, implOf, handle, oldStream, streamToChunks, implToStream);
    }

    /** The tail of Assign: enter the chunk under its new owner. */
    method Install(handle: Handle, newStream: Stream, newImpl: Impl, ghost implOf: Stream -> Impl)
      requires Valid(implOf)
      requires newStream != NO_STREAM && newImpl == implOf(newStream)
      requires forall s :: Reaches(implToStream, newImpl, s) ==> s == newStream
      requires forall s :: Owns(owner, s, handle) ==> s == newStream
      modifies this
      ensures Valid(implOf)
      ensures owner == old(owner)[handle := newStream]
    {
      ghost var was, implWas, ownerWas := streamToChunks, implToStream, owner;
      var chunks := if newStream in streamToChunks then streamToChunks[newStream] else {};
      streamToChunks := streamToChunks[newStream := chunks + {handle}];
      implToStream := implToStream[newImpl := newStream];
      owner := owner[handle := newStream];
      InstallKeepsConsistent(was, implWas, ownerWas, implOf, handle, newStream);
    }

    /** The stream behind an implementation object is found exactly while it owns a chunk. */
    method FindStream(impl: Impl, ghost implOf: Stream -> Impl) returns (stream: Stream)
      requires Valid(implOf)
      ensures stream != NO_STREAM ==> implOf(stream) == impl && exists h :: Owns(owner, stream, h)
      ensures stream == NO_STREAM ==> forall s, h :: Owns(owner, s, h) ==> implOf(s) != impl
    {
      if impl in implToStream {
        stream := implToStream[impl];
        assert Reaches(implToStream, impl, stream);
        ghost var h :| Lists(streamToChunks, stream, h);
        assert Owns(owner, stream, h);
      } else {
        stream := NO_STREAM;
        assert forall s, h :: Owns(owner, s, h) ==> Lists(streamToChunks, s, h) && Registered(streamToChunks, s);
      }
    }

    /** The set found for a stream is exactly the chunks it owns; null means it owns none. */
    method FindChunks(stream: Stream, ghost implOf: Stream -> Impl) returns (found: bool, chunks: set<Handle>)
      requires Valid(implOf)
      ensures found <==> exists h :: Owns(owner, stream, h)
      ensures found ==> forall h :: h in chunks <==> Owns(owner, stream, h)
    {
      assert forall h :: Lists(streamToChunks, stream, h) <==> Owns(owner, stream, h);
      if stream in streamToChunks {
        found, chunks := true, streamToChunks[stream];
        assert Registered(streamToChunks, stream);
        assert forall h :: h in chunks <==> Lists(streamToChunks, stream, h);
      } else {
        found, chunks := false, {};
      }
    }
  }
}
