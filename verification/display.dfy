/**
  The `sunxi_dispx11` display backend: its private record, `open`/`close`, the
  presentation call `set_video_layer` and the layer stubs.

  Each entry point is a pure step. Values the X server, the kernel or the C
  allocator hand back during image creation (the shared-memory extension flag,
  the window depth, the graphics context, the XImage's row pitch, the address
  `shmat` or `malloc` returns) come in as a `Server` record; what the backend asks
  of them goes out as an ordered list of `Events.Event`.
 */
module DisplayX11 {
  import opened Events

  /** The `source_format` tag of a decoded video surface; `Unlisted` is any other tag value. */
  datatype SourceFormat = YUYV | UYVY | NV12 | YV12 | Internal | Unlisted {
    /** The two 4:2:0 planar layouts, the only ones this backend presents. */
    predicate Planar() {
      NV12? || YV12?
    }
  }

  /**
    What a presentation call reads from the output surface: the video surface's
    format, size and plane sizes (C `int`s), and the CPU address of its plane
    block as `cedrus_mem_get_pointer` resolves it.
   */
  datatype VideoSurface = VideoSurface(
    format: SourceFormat,
    width: int,
    height: int,
    lumaSize: int,
    chromaSize: int,
    base: Addr)

  /** Replies of the display server, the kernel and the allocator during image creation. */
  datatype Server = Server(
    shmExtension: bool,  // XShmQueryExtension
    depth: int,          // depth of the target window
    context: Addr,       // XCreateGC
    bytesPerLine: int,   // row pitch of the XImage the server describes
    storage: Addr)       // address returned by shmat (shm path) or malloc (plain path)

  /**
    The private backend record. `imageCreated`, `imageWidth` and `imageHeight`
    record whether and at which size the destination image was made; the code
    itself decides by `data0 == Null` alone.
   */
  datatype Backend = Backend(
    display: Addr,
    drawable: int,
    device: int,
    depth: int,
    context: Addr,
    shm: bool,
    data0: Addr,
    data1: Addr,
    data2: Addr,
    bytesPerLine: int,
    image: Addr,
    imageCreated: bool,
    imageWidth: int,
    imageHeight: int)

  /** Result of one entry-point call: the new record, what it asked of the display, the return code. */
  datatype Outcome = Outcome(backend: Backend, events: seq<Event>, code: int)

  datatype Option<T> = None | Some(value: T)

  /** The record as `calloc` leaves it: every pointer null, every number zero, every flag false. */
  predicate Pristine(b: Backend) {
    && b.depth == 0 && b.context == Null && !b.shm
    && b.data0 == Null && b.data1 == Null && b.data2 == Null
    && b.bytesPerLine == 0 && b.image == Null
    && !b.imageCreated && b.imageWidth == 0 && b.imageHeight == 0
  }

  /** The destination image and everything fixed with it are the same in `a` and `b`. */
  predicate SameImage(a: Backend, b: Backend) {
    && a.depth == b.depth && a.context == b.context && a.shm == b.shm
    && a.bytesPerLine == b.bytesPerLine && a.image == b.image
    && a.imageCreated == b.imageCreated
    && a.imageWidth == b.imageWidth && a.imageHeight == b.imageHeight
  }

  /** A live image exists whenever the plane pointers have been set to a non-null block. */
  predicate Consistent(b: Backend) {
    b.data0 != Null ==> b.imageCreated
  }

  /** C's `n / 2` on an `int`, which truncates toward zero. */
  function Half(n: int): (r: int)
    ensures 0 <= n ==> 0 <= 2 * r <= n <= 2 * r + 1
    ensures n < 0 ==> n <= 2 * r <= 0 && 2 * r <= n + 1
  {
    if n >= 0 then n / 2 else -((-n) / 2)
  }

  /**
    `sunxi_dispx11_open`: a zeroed record on a fresh connection to the same
    display (`connection` is what XOpenDisplay returns), or nothing when the
    allocation fails.
   */
  function Open(recordAllocated: bool, connection: Addr, drawable: int, device: int): (r: Option<Backend>)
    ensures r.Some? <==> recordAllocated
    ensures r.Some? ==> Pristine(r.value)
    ensures r.Some? ==> r.value.display == connection && r.value.drawable == drawable && r.value.device == device
  {
    if recordAllocated then
      Some(Backend(connection, drawable, device, 0, Null, false, Null, Null, Null, 0, Null, false, 0, 0))
    else
      None
  }

  /** What a backend owns: its record and connection, and once the image exists its GC, image and pixels. */
  datatype Resource = BackendRecord | Connection | GraphicsContext | ImageObject | PixelStore

  function Held(b: Backend): set<Resource> {
    {BackendRecord, Connection}
    + (if b.imageCreated then {GraphicsContext, ImageObject, PixelStore} else {})
  }

  /** `sunxi_dispx11_close`: the set of resources it gives back. */
  function Close(b: Backend): (released: set<Resource>)
    ensures released <= Held(b)
    ensures BackendRecord in released
    ensures Held(b) - released == Held(b) - {BackendRecord}
  {
    {BackendRecord}
  }

  /** Closing releases only the record: the connection, and the image once created, outlive it. */
  lemma CloseLeaves(b: Backend)
    ensures Connection in Held(b) - Close(b)
    ensures b.imageCreated ==> {GraphicsContext, ImageObject, PixelStore} <= Held(b) - Close(b)
  {
  }

  /** The set-up block of `set_video_layer`, run when `data[0]` is null: GC, image, pixel storage, sync. */
  function CreateXImage(b: Backend, srv: Server, width: int, height: int): (Backend, seq<Event>) {
    var made := b.(depth := srv.depth, context := srv.context, shm := srv.shmExtension,
                   image := srv.storage, imageCreated := true,
                   imageWidth := width, imageHeight := height);
    if srv.shmExtension then
      (made,
       [CreateShmImage(srv.depth, width, height), AttachShm(srv.bytesPerLine * height, srv.storage), Sync])
    else
      (made.(bytesPerLine := srv.bytesPerLine),
       [CreateImage(srv.depth, width, height), AllocHeap(srv.bytesPerLine * height, srv.storage), Sync])
  }

  /** The record once the lazy set-up has run (or was skipped). */
  function Prepared(b: Backend, s: VideoSurface, srv: Server): Backend {
    if b.data0 == Null then CreateXImage(b, srv, s.width, s.height).0 else b
  }

  function SetupEvents(b: Backend, s: VideoSurface, srv: Server): seq<Event> {
    if b.data0 == Null then CreateXImage(b, srv, s.width, s.height).1 else []
  }

  /** `data[0..2]` pointed into the surface's plane block. */
  function WithPlanes(b: Backend, s: VideoSurface): Backend {
    b.(data0 := s.base,
       data1 := s.base + s.lumaSize,
       data2 := s.base + s.lumaSize + Half(s.chromaSize))
  }

  /** The NEON conversion into the image, present only in a HAS_NEON build. */
  function ConvertEvents(b: Backend, s: VideoSurface, hasNeon: bool): seq<Event> {
    if !hasNeon then []
    else if s.format.YV12? then [Convert(I420ToRGBA, [b.data0, b.data1, b.data2], s.width, s.height, b.image)]
    else [Convert(NV12ToRGBA, [b.data0, b.data1], s.width, s.height, b.image)]
  }

  /** The draw of the region (0, 0, width, height), flushed on the shared-memory path. */
  function DrawEvents(b: Backend, width: int, height: int): seq<Event> {
    if b.shm then [ShmPutImage(0, 0, width, height), Flush] else [PutImage(0, 0, width, height)]
  }

  /**
    `sunxi_dispx11_set_video_layer` on its live path. The target rectangle of the
    call is not read on this path and is not a parameter.
   */
  function SetVideoLayer(b: Backend, s: VideoSurface, srv: Server, hasNeon: bool): (r: Outcome)
    ensures r.code == 0
    ensures !s.format.Planar() ==> r.backend == b && r.events == []
    ensures s.format.Planar() ==> r.backend.data0 == s.base
  {
    if !s.format.Planar() then
      Outcome(b, [], 0)
    else
      var ready := WithPlanes(Prepared(b, s, srv), s);
      Outcome(ready, SetupEvents(b, s, srv) + ConvertEvents(ready, s, hasNeon) + DrawEvents(ready, s.width, s.height), 0)
  }

  /** `sunxi_dispx11_close_video_layer`: an empty body, so the record is left as it was. */
  function CloseVideoLayer(b: Backend): (r: Backend)
    ensures r == b
  {
    b
  }

  /** `sunxi_dispx11_set_osd_layer`: its body is commented out; the record is unchanged and it returns 0. */
  function SetOsdLayer(b: Backend): (r: (Backend, int))
    ensures r.0 == b && r.1 == 0
  {
    (b, 0)
  }

  /** `sunxi_dispx11_close_osd_layer`: an empty body, so the record is left as it was. */
  function CloseOsdLayer(b: Backend): (r: Backend)
    ensures r == b
  {
    b
  }

  // ---------------------------------------------------------------------------
  // Properties of one presentation call

  /** The lazy set-up contributes one creation, one storage and one sync event, or nothing. */
  lemma CountSetup(b: Backend, s: VideoSurface, srv: Server, k: Kind)
    ensures Count(SetupEvents(b, s, srv), k)
            == (if b.data0 == Null && (k == Creation || k == Storage || k == Synchronisation) then 1 else 0)
  {
    var es := SetupEvents(b, s, srv);
    if b.data0 == Null {
      CountSmall(es[0], es[1], es[2], k);
      assert es == [es[0], es[1], es[2]];
    } else {
      assert es == [];
    }
  }

  /** The conversion contributes one event in a HAS_NEON build and nothing otherwise. */
  lemma CountConvert(ready: Backend, s: VideoSurface, hasNeon: bool, k: Kind)
    ensures Count(ConvertEvents(ready, s, hasNeon), k) == (if hasNeon && k == Conversion then 1 else 0)
  {
  }

  /** The draw contributes one draw event, and one flush on the shared-memory path. */
  lemma CountDraw(ready: Backend, width: int, height: int, k: Kind)
    ensures Count(DrawEvents(ready, width, height), k)
            == (if k == Drawing || (ready.shm && k == Flushing) then 1 else 0)
  {
  }

  /** The events of a planar call are its set-up, conversion and draw, counted kind by kind. */
  lemma CountPlanarCall(b: Backend, s: VideoSurface, srv: Server, hasNeon: bool, k: Kind)
    requires s.format.Planar()
    ensures var r := SetVideoLayer(b, s, srv, hasNeon);
            Count(r.events, k)
            == (if b.data0 == Null && (k == Creation || k == Storage || k == Synchronisation) then 1 else 0)
               + (if hasNeon && k == Conversion then 1 else 0)
               + (if k == Drawing || (r.backend.shm && k == Flushing) then 1 else 0)
  {
    var ready := WithPlanes(Prepared(b, s, srv), s);
    var a, c, d := SetupEvents(b, s, srv), ConvertEvents(ready, s, hasNeon), DrawEvents(ready, s.width, s.height);
    CountAppend(a + c, d, k);
    CountAppend(a, c, k);
    CountSetup(b, s, srv, k);
    CountConvert(ready, s, hasNeon, k);
    CountDraw(ready, s.width, s.height, k);
  }

  /**
    Plane pointers: luma at the block base, first chroma plane `luma_size` further,
    second chroma plane half the chroma size beyond that, so for non-negative
    sizes the three are in address order.
   */
  lemma PlaneLayout(b: Backend, s: VideoSurface, srv: Server, hasNeon: bool)
    requires s.format.Planar()
    ensures var nb := SetVideoLayer(b, s, srv, hasNeon).backend;
            && nb.data0 == s.base
            && nb.data1 - nb.data0 == s.lumaSize
            && nb.data2 - nb.data1 == Half(s.chromaSize)
    ensures var nb := SetVideoLayer(b, s, srv, hasNeon).backend;
            0 <= s.lumaSize && 0 <= s.chromaSize ==>
              && nb.data0 <= nb.data1 <= nb.data2
              && nb.data2 - nb.data1 == s.chromaSize / 2
  {
  }

  /**
    The image is created by a planar call exactly when `data[0]` is still null;
    otherwise the image, its size, its kind and its pitch are left as they were.
    Every call of a non-planar format leaves the record alone.
   */
  lemma CreatesImageOnlyWhenUnset(b: Backend, s: VideoSurface, srv: Server, hasNeon: bool)
    ensures var r := SetVideoLayer(b, s, srv, hasNeon);
            Count(r.events, Creation) == (if s.format.Planar() && b.data0 == Null then 1 else 0)
    ensures var r := SetVideoLayer(b, s, srv, hasNeon);
            Count(r.events, Storage) == (if s.format.Planar() && b.data0 == Null then 1 else 0)
    ensures b.data0 != Null || !s.format.Planar() ==> SameImage(SetVideoLayer(b, s, srv, hasNeon).backend, b)
    ensures s.format.Planar() && s.base != Null ==> SetVideoLayer(b, s, srv, hasNeon).backend.data0 != Null
  {
    if s.format.Planar() {
      CountPlanarCall(b, s, srv, hasNeon, Creation);
      CountPlanarCall(b, s, srv, hasNeon, Storage);
    }
  }

  /**
    Image creation takes the size of the frame that triggers it. The shared-memory
    path attaches a segment of pitch x height bytes and leaves `bytes_per_line`
    as it was; the plain path records the pitch and allocates pitch x height
    bytes. Both paths end their set-up with one synchronisation.
   */
  lemma ImageCreation(b: Backend, s: VideoSurface, srv: Server, hasNeon: bool)
    requires s.format.Planar() && b.data0 == Null
    ensures var r := SetVideoLayer(b, s, srv, hasNeon);
            && r.backend.imageCreated
            && r.backend.imageWidth == s.width && r.backend.imageHeight == s.height
            && r.backend.shm == srv.shmExtension && r.backend.image == srv.storage
            && |r.events| >= 3 && r.events[2] == Sync
    ensures var r := SetVideoLayer(b, s, srv, hasNeon);
            srv.shmExtension ==>
              && r.events[0] == CreateShmImage(srv.depth, s.width, s.height)
              && r.events[1] == AttachShm(srv.bytesPerLine * s.height, srv.storage)
              && r.backend.bytesPerLine == b.bytesPerLine
    ensures var r := SetVideoLayer(b, s, srv, hasNeon);
            !srv.shmExtension ==>
              && r.events[0] == CreateImage(srv.depth, s.width, s.height)
              && r.events[1] == AllocHeap(r.backend.bytesPerLine * s.height, srv.storage)
              && r.backend.bytesPerLine == srv.bytesPerLine
  {
  }

  /**
    A HAS_NEON build converts each planar frame exactly once into the image:
    YV12 through the three-plane kernel with data[0], data[1], data[2], NV12
    through the two-plane kernel with data[0], data[1]. Without NEON nothing is
    converted.
   */
  lemma ConvertsOnceByFormat(b: Backend, s: VideoSurface, srv: Server, hasNeon: bool)
    requires s.format.Planar()
    ensures Count(SetVideoLayer(b, s, srv, hasNeon).events, Conversion) == (if hasNeon then 1 else 0)
    ensures var r := SetVideoLayer(b, s, srv, hasNeon);
            forall i :: 0 <= i < |r.events| && r.events[i].Convert? ==>
              && r.events[i].target == r.backend.image
              && r.events[i].width == s.width && r.events[i].height == s.height
              && (s.format.YV12? ==>
                    r.events[i].kernel == I420ToRGBA
                    && r.events[i].planes == [r.backend.data0, r.backend.data1, r.backend.data2])
              && (s.format.NV12? ==>
                    r.events[i].kernel == NV12ToRGBA
                    && r.events[i].planes == [r.backend.data0, r.backend.data1])
    ensures var r := SetVideoLayer(b, s, srv, hasNeon);
            !hasNeon ==> forall i :: 0 <= i < |r.events| ==> !r.events[i].Convert?
  {
    CountPlanarCall(b, s, srv, hasNeon, Conversion);
    CountZeroIff(SetVideoLayer(b, s, srv, hasNeon).events, Conversion);
    var ready := WithPlanes(Prepared(b, s, srv), s);
    var a, c, d := SetupEvents(b, s, srv), ConvertEvents(ready, s, hasNeon), DrawEvents(ready, s.width, s.height);
    var es := SetVideoLayer(b, s, srv, hasNeon).events;
    assert es == a + c + d;
    forall i | 0 <= i < |es|
      ensures es[i].Convert? ==> es[i] in c
    {
      if i < |a| {
        assert es[i] == a[i];
      } else if i >= |a| + |c| {
        assert es[i] == d[i - |a| - |c|];
      } else {
        assert es[i] == c[i - |a|];
      }
    }
  }

  /**
    Every planar call ends with exactly one draw of the full frame region
    (0, 0, width, height): an XShmPutImage followed by one flush when the image
    was set up with shared memory, a plain XPutImage and no flush otherwise.
    Shared memory is decided once, at image creation.
   */
  lemma DrawsFrameOnce(b: Backend, s: VideoSurface, srv: Server, hasNeon: bool)
    requires s.format.Planar()
    ensures var r := SetVideoLayer(b, s, srv, hasNeon);
            r.backend.shm == (if b.data0 == Null then srv.shmExtension else b.shm)
    ensures var r := SetVideoLayer(b, s, srv, hasNeon);
            Count(r.events, Drawing) == 1 && Count(r.events, Flushing) == (if r.backend.shm then 1 else 0)
    ensures var r := SetVideoLayer(b, s, srv, hasNeon);
            r.backend.shm ==>
              |r.events| >= 2
              && r.events[|r.events| - 2] == ShmPutImage(0, 0, s.width, s.height)
              && r.events[|r.events| - 1] == Flush
    ensures var r := SetVideoLayer(b, s, srv, hasNeon);
            !r.backend.shm ==> |r.events| >= 1 && r.events[|r.events| - 1] == PutImage(0, 0, s.width, s.height)
    ensures var r := SetVideoLayer(b, s, srv, hasNeon);
            !r.backend.shm ==> forall i :: 0 <= i < |r.events| ==> r.events[i] != Flush
  {
    CountPlanarCall(b, s, srv, hasNeon, Drawing);
    CountPlanarCall(b, s, srv, hasNeon, Flushing);
    CountZeroIff(SetVideoLayer(b, s, srv, hasNeon).events, Flushing);
  }

  /** A call's events come phase by phase: set-up, then conversion, then the draw, then the flush. */
  lemma EventsInStageOrder(b: Backend, s: VideoSurface, srv: Server, hasNeon: bool)
    ensures InStageOrder(SetVideoLayer(b, s, srv, hasNeon).events)
  {
  }

  /** Every call keeps the record consistent; a freshly opened record is. */
  lemma SetVideoLayerKeepsConsistent(b: Backend, s: VideoSurface, srv: Server, hasNeon: bool)
    requires Consistent(b)
    ensures Consistent(SetVideoLayer(b, s, srv, hasNeon).backend)
    ensures s.format.Planar() ==> SetVideoLayer(b, s, srv, hasNeon).backend.imageCreated
  {
  }

  /**
    A null plane base defeats the once-only guard: the next planar frame builds
    a second image, although one already exists.
   */
  lemma NullBaseRecreatesImage(b: Backend, s1: VideoSurface, s2: VideoSurface, srv1: Server, srv2: Server, hasNeon: bool)
    requires Consistent(b)
    requires s1.format.Planar() && s2.format.Planar() && s1.base == Null
    ensures var first := SetVideoLayer(b, s1, srv1, hasNeon);
            first.backend.imageCreated
            && Count(SetVideoLayer(first.backend, s2, srv2, hasNeon).events, Creation) == 1
  {
    var first := SetVideoLayer(b, s1, srv1, hasNeon);
    CreatesImageOnlyWhenUnset(first.backend, s2, srv2, hasNeon);
    if b.data0 == Null {
      ImageCreation(b, s1, srv1, hasNeon);
    }
  }
}
