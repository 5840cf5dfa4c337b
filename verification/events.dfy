/**
  The observable effects of the X11 render backend, as an ordered list of abstract
  display events. The X11, XShm and System V shared-memory calls are I/O and appear
  here only as the events they stand for; the NEON colour-conversion kernels are
  foreign code and appear only as the `Convert` event naming the kernel, its
  plane pointers, its frame size and its output buffer.
 */
module Events {

  /** An abstract address; `Null` is the C null pointer. */
  type Addr = int

  const Null: Addr := 0

  /** The two conversion kernels of the NEON colour-space converter. */
  datatype Kernel = I420ToRGBA | NV12ToRGBA

  datatype Event =
    | CreateShmImage(depth: int, width: int, height: int)  // XShmCreateImage
    | AttachShm(size: int, addr: Addr)                      // shmget + shmat + XShmAttach (not shmctl)
    | CreateImage(depth: int, width: int, height: int)     // XCreateImage
    | AllocHeap(size: int, addr: Addr)                      // malloc of the pixel buffer
    | Sync                                                  // XSync
    | Convert(kernel: Kernel, planes: seq<Addr>, width: int, height: int, target: Addr)
    | ShmPutImage(x: int, y: int, width: int, height: int)  // XShmPutImage of a region
    | PutImage(x: int, y: int, width: int, height: int)     // XPutImage of a region
    | Flush                                                 // XFlush

  /** Coarse classification of events, used to count them. */
  datatype Kind = Creation | Storage | Synchronisation | Conversion | Drawing | Flushing

  function KindOf(e: Event): Kind {
    match e
    case CreateShmImage(_, _, _) => Creation
    case CreateImage(_, _, _) => Creation
    case AttachShm(_, _) => Storage
    case AllocHeap(_, _) => Storage
    case Sync => Synchronisation
    case Convert(_, _, _, _, _) => Conversion
    case ShmPutImage(_, _, _, _) => Drawing
    case PutImage(_, _, _, _) => Drawing
    case Flush => Flushing
  }

  /** The phase of a presentation call an event belongs to: set-up, conversion, draw, flush. */
  function Stage(e: Event): nat {
    match KindOf(e)
    case Creation => 0
    case Storage => 0
    case Synchronisation => 0
    case Conversion => 1
    case Drawing => 2
    case Flushing => 3
  }

  /** Events appear phase by phase: no set-up after a conversion, no conversion after a draw. */
  predicate InStageOrder(es: seq<Event>) {
    forall i, j :: 0 <= i < j < |es| ==> Stage(es[i]) <= Stage(es[j])
  }

  /** The number of events of kind `k` in `es`. */
  function Count(es: seq<Event>, k: Kind): (n: nat)
    ensures n <= |es|
  {
    if es == [] then 0
    else (if KindOf(es[0]) == k then 1 else 0) + Count(es[1..], k)
  }

  /** Counting distributes over concatenation of event lists. */
  lemma {:induction false} CountAppend(a: seq<Event>, b: seq<Event>, k: Kind)
    ensures Count(a + b, k) == Count(a, k) + Count(b, k)
  {
    if a == [] {
      assert a + b == b;
    } else {
      assert (a + b)[1..] == a[1..] + b;
      CountAppend(a[1..], b, k);
    }
  }

  /** Counting a list of one, two or three events. */
  lemma CountSmall(x: Event, y: Event, z: Event, k: Kind)
    ensures Count([x], k) == (if KindOf(x) == k then 1 else 0)
    ensures Count([x, y], k) == Count([x], k) + Count([y], k)
    ensures Count([x, y, z], k) == Count([x], k) + Count([y], k) + Count([z], k)
  {
  }

  /** No event of kind `k` is counted exactly when none occurs at any position. */
  lemma {:induction false} CountZeroIff(es: seq<Event>, k: Kind)
    ensures Count(es, k) == 0 <==> forall i :: 0 <= i < |es| ==> KindOf(es[i]) != k
  {
    if es != [] {
      CountZeroIff(es[1..], k);
      if Count(es, k) == 0 {
        forall i | 0 <= i < |es|
          ensures KindOf(es[i]) != k
        {
          if i > 0 {
            assert es[i] == es[1..][i - 1];
          }
        }
      } else if KindOf(es[0]) != k {
        var i :| 0 <= i < |es[1..]| && KindOf(es[1..][i]) == k;
        assert es[i + 1] == es[1..][i];
      }
    }
  }
}
