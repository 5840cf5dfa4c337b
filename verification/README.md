# sunxi X11 render backend — Dafny model

A model of `sunxi_renderx11.c`, the X11 presentation backend of the sunxi VDPAU
driver. The backend takes a decoded video surface, converts it to packed RGBA
with a NEON kernel, and draws the result into an X11 drawable. It uses the
MIT-SHM shared-memory image path when the server supports it.

The model covers four things:

- **`time_diff`** (`timing.dfy`, module `Timing`): the nanosecond difference of
  two `timespec` stamps. The model gives its exact closed form, shows it is
  symmetric, and states when it equals the true elapsed time.
- **The backend record and its entry points** (`display.dfy`, module
  `DisplayX11`). Covered entry points: `open`, `close`, `set_video_layer` on its
  live path, `close_video_layer`, `set_osd_layer` and `close_osd_layer`. Each
  is a pure function:
  - `Open` takes the allocation outcome and the new connection, drawable and
    device, and returns `Option<Backend>`.
  - `Close` takes the record and returns the set of resources it releases.
  - `SetVideoLayer` takes the record, the surface, the `Server` replies and the
    NEON switch. It returns an `Outcome`: the new record, an ordered list of
    abstract display events and the return code.
  - `CloseVideoLayer` and `CloseOsdLayer` return the record.
  - `SetOsdLayer` returns the record and its return code.
- **The display events** (`events.dfy`, module `Events`). These are the
  XShmCreateImage / shm attach / XCreateImage / malloc / XSync calls, the NEON
  conversion, the XShmPutImage / XPutImage draw and XFlush. This module also
  counts events by kind and says what phase order means.
- **Sessions** (`session.dfy`, module `Session`): a sequence of layer calls on
  one backend. `Session.Apply` lifts every layer call to an `Outcome`, and
  `Session.Run` chains them. The once-only image creation is stated over whole
  streams of frames.

Parameters stand in for the environment:

- `Server` holds the values the X server, the kernel and `malloc` return while
  the image is made: the MIT-SHM query result, the window depth, the graphics
  context, the XImage's `bytes_per_line`, and the address from `shmat` or
  `malloc`.
- `hasNeon` is the `HAS_NEON` build switch.
- A surface's plane block is an abstract address. `Null` (0) is the C null
  pointer.

Behaviour of the code a caller may not expect (the model follows the code):

- `close` frees only the backend record. The display connection opened by
  XOpenDisplay, the GC, the XImage and its pixel storage are not released
  (`DisplayX11.CloseLeaves`).
- An unsupported format (YUYV, UYVY, the internal tag, any unlisted tag) is
  logged, and the call still returns 0. No error status is given.
- The image-creation guard is `data[0] == NULL`; there is no separate created flag. A surface
  whose plane block resolves to NULL therefore makes the next frame build a
  second image (`DisplayX11.NullBaseRecreatesImage`).
- Conversion and drawing use the current frame's width and height. The image
  keeps the size of the first frame (`Session.ImageKeepsFirstFrameSize`). No
  check is made when the two differ.

## Model

| member | source | states |
|---|---|---|
| Timing.TimeDiff | sunxi_renderx11.c:98-109 | the result is exactly \|Δsec\|·10^9 + \|Δnsec\|: the one-second borrow cancels against the added 10^9 |
| Timing.TimeDiffSymmetric | sunxi_renderx11.c:98-109 | swapping the two stamps gives the same result |
| Timing.TimeDiffVersusElapsed | sunxi_renderx11.c:100-108 | for normalised stamps in chronological order, the result equals the elapsed time iff the seconds agree or the later nanoseconds are not smaller; otherwise it overstates by 2·\|Δnsec\| |
| Timing.TimeDiffOverstatesAcrossSecondBoundary | sunxi_renderx11.c:100-108 | stamps (1 s, 0.9e9 ns) and (2 s, 0.8e9 ns) are 0.9 s apart and are reported as 1.1 s |
| DisplayX11.Half | sunxi_renderx11.c:201 | C `int` division by 2 truncates toward zero: for n ≥ 0 the result r has 2r ≤ n ≤ 2r+1; for negative n it rounds up |
| DisplayX11.Open | sunxi_renderx11.c:112-131 | a backend exists iff the record allocation succeeded; it starts zeroed (no planes, no image, pitch 0, no shm) on the new connection, drawable and device |
| DisplayX11.Close | sunxi_renderx11.c:133-138 | close gives back only resources the backend holds; the record is among them, and nothing else is released |
| DisplayX11.CloseLeaves | sunxi_renderx11.c:133-138 | after close the display connection is still held, and so are the GC, the image and its pixel storage once they exist |
| DisplayX11.SetVideoLayer | sunxi_renderx11.c:140-313 | the call always returns 0; YUYV, UYVY, the internal tag and any unlisted tag leave the record unchanged and emit no event; a planar call points data[0] at the surface's plane block |
| DisplayX11.CountPlanarCall | sunxi_renderx11.c:157-238 | a planar call emits one creation, storage and sync event iff data[0] was null, one conversion iff HAS_NEON, one draw, and one flush iff the image uses shared memory |
| DisplayX11.PlaneLayout | sunxi_renderx11.c:199-201 | data[1] lies luma_size past data[0], and data[2] lies half the chroma size (truncated) past data[1]; for non-negative sizes data[0] ≤ data[1] ≤ data[2] |
| DisplayX11.CreatesImageOnlyWhenUnset | sunxi_renderx11.c:157-197 | image creation happens iff the format is planar and data[0] is null; otherwise the image, its size, kind and pitch are unchanged; a non-null base leaves data[0] non-null |
| DisplayX11.ImageCreation | sunxi_renderx11.c:162-186 | the image takes the triggering frame's size. The shm path attaches pitch×height bytes and keeps bytes_per_line. The plain path records the pitch and mallocs pitch×height bytes. Both end with a sync |
| DisplayX11.ConvertsOnceByFormat | sunxi_renderx11.c:212-226 | a HAS_NEON build converts exactly once into the image, and a build without it never converts. YV12 uses the I420 kernel on data[0..2]; NV12 uses the NV12 kernel on data[0..1]. Without NEON no event at any position is a conversion |
| DisplayX11.DrawsFrameOnce | sunxi_renderx11.c:233-238 | a planar call emits exactly one draw of (0,0,width,height). On shm it is XShmPutImage followed by the only flush. Otherwise it is XPutImage, and no event at any position is a flush. shm is decided when the image is created |
| DisplayX11.EventsInStageOrder | sunxi_renderx11.c:157-238 | events come in phase order: set-up, conversion, draw, flush |
| DisplayX11.SetVideoLayerKeepsConsistent | sunxi_renderx11.c:157-201 | a non-null data[0] always comes with a created image, and every planar call leaves an image behind |
| DisplayX11.NullBaseRecreatesImage | sunxi_renderx11.c:157-201 | after a frame whose plane block is NULL, the next planar frame creates an image again |
| DisplayX11.CloseVideoLayer | sunxi_renderx11.c:316-319 | the record is unchanged |
| DisplayX11.SetOsdLayer | sunxi_renderx11.c:321-352 | the record is unchanged and the return code is 0 |
| DisplayX11.CloseOsdLayer | sunxi_renderx11.c:354-357 | the record is unchanged |
| Session.Run | sunxi_renderx11.c:140-357 | a run yields one code per call, and every code is 0 (the `void` close stubs count as 0) |
| Session.NonPlanarCallIsNoOp | sunxi_renderx11.c:316-357 | the close-video, set-OSD and close-OSD stubs and every non-planar video call leave the record unchanged, emit nothing and return 0 |
| Session.ImageCreatedAtMostOnce | sunxi_renderx11.c:157-201 | over a session with non-null plane blocks, the image is created exactly once if data[0] starts null and some planar frame is presented, and never otherwise |
| Session.ImageStable | sunxi_renderx11.c:157-199 | once data[0] is non-null, no later call of a non-null session changes the image or its size, kind or pitch |
| Session.ImageKeepsFirstFrameSize | sunxi_renderx11.c:155-183 | in a session starting with data[0] null whose presented frames all have a non-null plane block, the image at the end has the width and height of the first presented frame |
| Session.UnsupportedSessionIsSilent | sunxi_renderx11.c:144-250 | a session with no planar frame leaves the record as it was and emits no event |
| Session.StubsAreInvisible | sunxi_renderx11.c:316-357 | removing every layer-stub call from a session changes neither its final record nor its events |
| Session.FreshSessionCreatesOnce | sunxi_renderx11.c:112-199 | from a freshly opened backend, in a session whose presented frames all have a non-null plane block, the image is created exactly once iff the session presents a planar frame |

## Left out

- The X11, XShm and System V shared-memory calls are I/O. They appear only as
  abstract events, and their results arrive as the `Server` parameter. Failure
  of `shmget`/`shmat` is only logged in the code, so the model does not branch
  on it. A NULL result of `XShmCreateImage` or `XCreateImage` would be
  dereferenced in the code, and the model does not model it.
- XShmQueryExtension, XGetWindowAttributes and XCreateGC are not separate
  events. Their results are recorded in the record fields `shm`, `depth` and
  `context`.
- The NEON kernels `I420ToRGBA` and `NV12ToRGBA` are foreign code in
  `csc_neon.h`, which is not part of this model. The model has no pixel
  arithmetic; a conversion is only the `Convert` event.
- `cedrus_mem_get_pointer` comes from the surface allocator. Its result is the
  surface's `base` address.
- The `#if 0` hardware-overlay block (lines 253-312) and the raw-frame dump
  (lines 202-209) are disabled code and are not modelled.
- The `rgba.format` switch (lines 188-196) only prints.
- All `fprintf`/`printf` logging is left out.
- `clock_gettime` and the conversion-time millisecond print (lines 214-231) are
  left out. `time_diff` itself is modelled.
- The function-static `Shminfo` and the static scratch `timespec` in
  `time_diff` are treated as locals.
- The `x`, `y`, `width`, `height` arguments of `set_video_layer` and
  `set_osd_layer` are not read on the live path. They are not parameters.
- Timing.TimeDiff: on 32-bit targets the signed `time_t` product
  `tv_sec * 1000000000` overflows (undefined behaviour) before the result is
  converted to `unsigned long`. The model uses mathematical integers.
- `shmctl(IPC_RMID)` after the XSync on the shared-memory path (line 178) only
  marks the segment for removal once detached. It is not an event.
- Session.Run: `close_video_layer` and `close_osd_layer` are `void` in C. In a
  run they get code 0 by convention, so that every call has one entry in
  `codes`.
- Pointer arithmetic for `data[1]` and `data[2]` is on unbounded integers. No
  address-space wrap-around is modelled.
- The XImage object is one abstract resource. Re-creation after a NULL plane
  base is shown by `DisplayX11.NullBaseRecreatesImage`. The leak of the earlier
  image is not counted in `DisplayX11.Held`.
