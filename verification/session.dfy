/**
  A session of the X11 backend: the sequence of layer calls the presentation
  pipeline makes on one opened backend, run one after the other. This is where
  the once-only image creation shows as a property of a whole stream of frames.
 */
module Session {
  import opened Events
  import opened DisplayX11

  /** One call of the pipeline on an open backend. */
  datatype Call =
    | SetVideo(surface: VideoSurface, server: Server)
    | CloseVideo
    | SetOsd
    | CloseOsd

  /** One call as a step: the presentation call, or one of the three layer stubs. */
  function Apply(b: Backend, c: Call, hasNeon: bool): Outcome {
    match c
    case SetVideo(s, srv) => SetVideoLayer(b, s, srv, hasNeon)
    case CloseVideo => Outcome(CloseVideoLayer(b), [], 0)
    case SetOsd => var (nb, code) := SetOsdLayer(b); Outcome(nb, [], code)
    case CloseOsd => Outcome(CloseOsdLayer(b), [], 0)
  }

  /** A run: the final record, every event in order, and each call's return code. */
  datatype Trace = Trace(backend: Backend, events: seq<Event>, codes: seq<int>)

  /** The calls run in order; every call of this backend returns 0. */
  function Run(b: Backend, calls: seq<Call>, hasNeon: bool): (t: Trace)
    ensures |t.codes| == |calls|
    ensures forall i :: 0 <= i < |t.codes| ==> t.codes[i] == 0
    decreases |calls|
  {
    if calls == [] then
      Trace(b, [], [])
    else
      var o := Apply(b, calls[0], hasNeon);
      var rest := Run(o.backend, calls[1..], hasNeon);
      Trace(rest.backend, o.events + rest.events, [o.code] + rest.codes)
  }

  /** A call that presents a frame: a video call with an NV12 or YV12 surface. */
  predicate IsPlanarFrame(c: Call) {
    c.SetVideo? && c.surface.format.Planar()
  }

  /** Every presented frame resolves to a non-null plane block. */
  predicate NonNullFrames(calls: seq<Call>) {
    forall i :: 0 <= i < |calls| && IsPlanarFrame(calls[i]) ==> calls[i].surface.base != Null
  }

  predicate HasPlanarFrame(calls: seq<Call>) {
    exists i :: 0 <= i < |calls| && IsPlanarFrame(calls[i])
  }

  /** The video calls of a session, in order, without the layer stubs. */
  function VideoCalls(calls: seq<Call>): (r: seq<Call>)
    ensures |r| <= |calls|
    ensures forall i :: 0 <= i < |r| ==> r[i].SetVideo?
    decreases |calls|
  {
    if calls == [] then []
    else if calls[0].SetVideo? then [calls[0]] + VideoCalls(calls[1..])
    else VideoCalls(calls[1..])
  }

  /** The layer stubs and the unsupported formats change nothing and show nothing. */
  lemma NonPlanarCallIsNoOp(b: Backend, c: Call, hasNeon: bool)
    requires !IsPlanarFrame(c)
    ensures Apply(b, c, hasNeon) == Outcome(b, [], 0)
  {
  }

  lemma NonNullFramesTail(calls: seq<Call>)
    requires calls != [] && NonNullFrames(calls)
    ensures NonNullFrames(calls[1..])
  {
  }

  /** A session with at least one call has a planar frame iff its head is one or its tail has one. */
  lemma HasPlanarFrameSplit(calls: seq<Call>)
    requires calls != []
    ensures HasPlanarFrame(calls) <==> IsPlanarFrame(calls[0]) || HasPlanarFrame(calls[1..])
  {
  }

  /**
    Init-once over a whole session: when every presented frame has a non-null
    plane block, the image is created exactly once if data[0] starts null and
    some planar frame is presented, and never otherwise. The guard is data[0],
    not whether an image exists: after a NULL plane block a record can hold an
    image with data[0] null, and the next frame creates another.
   */
  lemma {:induction false} ImageCreatedAtMostOnce(b: Backend, calls: seq<Call>, hasNeon: bool)
    requires NonNullFrames(calls)
    ensures Count(Run(b, calls, hasNeon).events, Creation)
            == (if b.data0 == Null && HasPlanarFrame(calls) then 1 else 0)
    decreases |calls|
  {
    if calls != [] {
      var o := Apply(b, calls[0], hasNeon);
      var rest := Run(o.backend, calls[1..], hasNeon);
      NonNullFramesTail(calls);
      HasPlanarFrameSplit(calls);
      ImageCreatedAtMostOnce(o.backend, calls[1..], hasNeon);
      CountAppend(o.events, rest.events, Creation);
      if IsPlanarFrame(calls[0]) {
        CreatesImageOnlyWhenUnset(b, calls[0].surface, calls[0].server, hasNeon);
        assert o.backend.data0 != Null;
      } else {
        NonPlanarCallIsNoOp(b, calls[0], hasNeon);
      }
    }
  }

  /** Once the plane pointers are set, no later call of a non-null session touches the image. */
  lemma {:induction false} ImageStable(b: Backend, calls: seq<Call>, hasNeon: bool)
    requires NonNullFrames(calls) && b.data0 != Null
    ensures SameImage(Run(b, calls, hasNeon).backend, b)
    ensures Run(b, calls, hasNeon).backend.data0 != Null
    decreases |calls|
  {
    if calls != [] {
      var o := Apply(b, calls[0], hasNeon);
      NonNullFramesTail(calls);
      if IsPlanarFrame(calls[0]) {
        CreatesImageOnlyWhenUnset(b, calls[0].surface, calls[0].server, hasNeon);
      } else {
        NonPlanarCallIsNoOp(b, calls[0], hasNeon);
      }
      ImageStable(o.backend, calls[1..], hasNeon);
    }
  }

  /**
    The image keeps the size of the first presented frame for the rest of the
    session, whatever sizes later frames have.
   */
  lemma {:induction false} ImageKeepsFirstFrameSize(b: Backend, calls: seq<Call>, k: nat, hasNeon: bool)
    requires NonNullFrames(calls) && b.data0 == Null
    requires k < |calls| && IsPlanarFrame(calls[k])
    requires forall j :: 0 <= j < k ==> !IsPlanarFrame(calls[j])
    ensures var t := Run(b, calls, hasNeon);
            && t.backend.imageCreated
            && t.backend.imageWidth == calls[k].surface.width
            && t.backend.imageHeight == calls[k].surface.height
    decreases k
  {
    var o := Apply(b, calls[0], hasNeon);
    NonNullFramesTail(calls);
    if k == 0 {
      ImageCreation(b, calls[0].surface, calls[0].server, hasNeon);
      ImageStable(o.backend, calls[1..], hasNeon);
    } else {
      NonPlanarCallIsNoOp(b, calls[0], hasNeon);
      forall j | 0 <= j < k - 1
        ensures !IsPlanarFrame(calls[1..][j])
      {
        assert calls[1..][j] == calls[j + 1];
      }
      ImageKeepsFirstFrameSize(o.backend, calls[1..], k - 1, hasNeon);
    }
  }

  /** A session that presents no NV12/YV12 frame leaves the record as it was and shows nothing. */
  lemma {:induction false} UnsupportedSessionIsSilent(b: Backend, calls: seq<Call>, hasNeon: bool)
    requires forall i :: 0 <= i < |calls| ==> !IsPlanarFrame(calls[i])
    ensures Run(b, calls, hasNeon).backend == b
    ensures Run(b, calls, hasNeon).events == []
    decreases |calls|
  {
    if calls != [] {
      NonPlanarCallIsNoOp(b, calls[0], hasNeon);
      forall i | 0 <= i < |calls[1..]|
        ensures !IsPlanarFrame(calls[1..][i])
      {
        assert calls[1..][i] == calls[i + 1];
      }
      UnsupportedSessionIsSilent(b, calls[1..], hasNeon);
    }
  }

  /** Dropping every layer-stub call from a session changes neither its final record nor its events. */
  lemma {:induction false} StubsAreInvisible(b: Backend, calls: seq<Call>, hasNeon: bool)
    ensures Run(b, VideoCalls(calls), hasNeon).backend == Run(b, calls, hasNeon).backend
    ensures Run(b, VideoCalls(calls), hasNeon).events == Run(b, calls, hasNeon).events
    decreases |calls|
  {
    if calls != [] {
      var o := Apply(b, calls[0], hasNeon);
      StubsAreInvisible(o.backend, calls[1..], hasNeon);
      if calls[0].SetVideo? {
        var v := VideoCalls(calls);
        assert v == [calls[0]] + VideoCalls(calls[1..]);
        assert v[0] == calls[0] && v[1..] == VideoCalls(calls[1..]);
      } else {
        NonPlanarCallIsNoOp(b, calls[0], hasNeon);
        assert o.events == [];
      }
    }
  }

  /**
    From a freshly opened backend, a session whose frames all have a plane block
    creates its image exactly once if it presents any frame at all.
   */
  lemma FreshSessionCreatesOnce(connection: Addr, drawable: int, device: int, calls: seq<Call>, hasNeon: bool)
    requires NonNullFrames(calls)
    ensures Open(true, connection, drawable, device).Some?
    ensures var b := Open(true, connection, drawable, device).value;
            Count(Run(b, calls, hasNeon).events, Creation) == (if HasPlanarFrame(calls) then 1 else 0)
  {
    var b := Open(true, connection, drawable, device).value;
    ImageCreatedAtMostOnce(b, calls, hasNeon);
  }
}
