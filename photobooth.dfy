/**
 * The control logic of examples/sample-photobooth.c: capture_to_file, and one
 * pass of main's loop (the capture_now latch, the mandatory preview and the
 * event drain), with every libgphoto2 and filesystem call replaced by the
 * reply it gave (module GPhoto).
 *
 * The pure functions After* say what each step does to a World snapshot; the
 * lemmas state the loop's properties about them; class Booth runs the same
 * steps imperatively and is proved to follow the After* functions.
 */
module Photobooth {
  import opened GPhoto
  import opened ImageNames

  /** gp_file_save's target for every preview frame. */
  const PREVIEW_NAME := "preview.jpg"

  /**
   * Everything the loop's steps can observe or change:
   * count      - capturecnt, the next image number;
   * captureNow - the capture_now latch (set by SIGUSR1);
   * readConfig - the read_config latch (set by SIGUSR2);
   * local      - the files that exist in the working directory;
   * device     - the files that exist on the camera;
   * deletes    - every gp_camera_file_delete issued, in order;
   * names      - every image name sprintf wrote into output_file, in order;
   * exited     - the process has called exit(1).
   */
  datatype World = World(
    count: nat,
    captureNow: bool,
    readConfig: bool,
    local: set<string>,
    device: set<CameraFilePath>,
    deletes: seq<CameraFilePath>,
    names: seq<string>,
    exited: bool)

  /** The state after a call together with the int the call returned. */
  datatype Returned = Returned(world: World, ret: int)

  /**
   * One pass of main's loop: whether SIGUSR1 (capture) and SIGUSR2 (reload)
   * arrived before the latch is read, and every foreign reply of the pass.
   */
  datatype Round = Round(
    signal: bool,
    reload: bool,
    capture: CaptureReply,
    transfer: TransferReply,
    preview: PreviewReply,
    polls: seq<Poll>)

  // ---------------------------------------------------------------------------
  // capture_to_file (lines 26-54)

  function AfterCaptureToFile(w: World, fn: string, cap: CaptureReply, t: TransferReply): Returned {
    if cap.ret < GP_OK then Returned(w, cap.ret)
    else
      var captured := w.(device := w.device + {cap.path});
      var created := if t.created then captured.(local := captured.local + {fn}) else captured;
      if t.wrapRet < GP_OK then Returned(created.(local := created.local - {fn}), t.wrapRet)
      else if t.getRet < GP_OK then Returned(created.(local := created.local - {fn}), t.getRet)
      else
        var requested := created.(deletes := created.deletes + [cap.path]);
        var deleted := if t.deleteRet >= GP_OK then requested.(device := requested.device - {cap.path}) else requested;
        Returned(deleted, GP_OK)
  }

  // ---------------------------------------------------------------------------
  // The preview step (lines 111-127)

  predicate PreviewFails(r: PreviewReply) {
    r.newRet != GP_OK || r.captureRet != GP_OK || r.saveRet != GP_OK
  }

  function AfterPreview(w: World, r: PreviewReply): World {
    if r.newRet != GP_OK then w.(exited := true)
    else if r.captureRet != GP_OK then w.(exited := true)
    else if r.saveRet != GP_OK then w.(exited := true)
    else w.(local := w.local + {PREVIEW_NAME})
  }

  // ---------------------------------------------------------------------------
  // The event drain (lines 133-182)

  /** The switch on the event type (lines 142-179) for a poll that returned GP_OK. */
  function AfterEvent(w: World, event: CameraEvent, t: TransferReply): World {
    match event
    case FileAdded(path) =>
      var named := w.(device := w.device + {path}, count := w.count + 1, names := w.names + [ImageName(w.count)]);
      var created := if t.created then named.(local := named.local + {ImageName(w.count)}) else named;
      var requested := created.(deletes := created.deletes + [path]);
      if t.deleteRet >= GP_OK then requested.(device := requested.device - {path}) else requested
    case _ => w
  }

  /** A poll result that ends the drain: an error return or a TIMEOUT event. */
  predicate Stops(p: Poll) {
    p.ret != GP_OK || p.event.Timeout?
  }

  /** How many poll results the drain consumes: up to and including the first that stops it. */
  function DrainLength(polls: seq<Poll>): (n: nat)
    ensures n <= |polls|
    ensures n == 0 <==> polls == []
    ensures forall i :: 0 <= i < n - 1 ==> !Stops(polls[i])
    ensures n < |polls| ==> Stops(polls[n - 1])
  {
    if polls == [] then 0
    else if Stops(polls[0]) then 1
    else 1 + DrainLength(polls[1..])
  }

  function AfterDrain(w: World, polls: seq<Poll>): World
    decreases |polls|
  {
    if polls == [] then w
    else if polls[0].ret != GP_OK then w
    else
      var handled := AfterEvent(w, polls[0].event, polls[0].transfer);
      if polls[0].event.Timeout? then handled else AfterDrain(handled, polls[1..])
  }

  /** The number of successful polls in s that report FILE_ADDED. */
  function CountFileAdded(s: seq<Poll>): nat {
    if s == [] then 0
    else (if s[0].ret == GP_OK && s[0].event.FileAdded? then 1 else 0) + CountFileAdded(s[1..])
  }

  // ---------------------------------------------------------------------------
  // One pass of the loop (lines 95-182) and a bounded run of passes

  /** Lines 102-106: read and clear the latch, then capture to the next image name. */
  function AfterOnDemand(w: World, cap: CaptureReply, t: TransferReply): World {
    if w.captureNow then
      var named := w.(captureNow := false, count := w.count + 1, names := w.names + [ImageName(w.count)]);
      AfterCaptureToFile(named, ImageName(w.count), cap, t).world
    else w
  }

  function AfterIteration(w: World, cap: CaptureReply, t: TransferReply, preview: PreviewReply, polls: seq<Poll>): World {
    var captured := AfterOnDemand(w, cap, t);
    var previewed := AfterPreview(captured, preview);
    if PreviewFails(preview) then previewed else AfterDrain(previewed, polls)
  }

  /** The signal handlers' only effect: setting capture_now (SIGUSR1) and read_config (SIGUSR2). */
  function Signalled(w: World, signal: bool, reload: bool): World {
    w.(captureNow := w.captureNow || signal, readConfig := w.readConfig || reload)
  }

  /** Passes of the loop, one per round, until the process exits. */
  function AfterRun(w: World, rounds: seq<Round>): World
    decreases |rounds|
  {
    if rounds == [] || w.exited then w
    else
      var r := rounds[0];
      AfterRun(AfterIteration(Signalled(w, r.signal, r.reload), r.capture, r.transfer, r.preview, r.polls), rounds[1..])
  }

  /**
   * Between w and w' the counter did not go down, the names handed out are
   * exactly those of the counter values w.count, ..., w'.count - 1 in order,
   * and every local file that appeared is the preview or one of those names.
   */
  ghost predicate OnlyNewImages(w: World, w': World) {
    w.count <= w'.count &&
    w'.names == w.names + NameRange(w.count, w'.count) &&
    forall f :: f in w'.local && f !in w.local ==> f == PREVIEW_NAME || f in ImageNamesBetween(w.count, w'.count)
  }

  // ---------------------------------------------------------------------------
  // The program's mutable state and the steps that update it in place

  /**
   * The state main's loop mutates: the globals capture_now and read_config,
   * the local counter capturecnt, and the files the loop's calls create and
   * delete on the local disk and on the camera.
   */
  class Booth {
    var count: nat
    var captureNow: bool
    var readConfig: bool
    var local: set<string>
    var device: set<CameraFilePath>
    var deletes: seq<CameraFilePath>
    var names: seq<string>
    var exited: bool

    function State(): World
      reads this
    {
      World(count, captureNow, readConfig, local, device, deletes, names, exited)
    }

    /** The state on entry to the loop (line 95): counter 0, both latches clear. */
    constructor (files: set<string>, cameraFiles: set<CameraFilePath>)
      ensures State() == World(0, false, false, files, cameraFiles, [], [], false)
    {
      count := 0;
      captureNow := false;
      readConfig := false;
      local := files;
      device := cameraFiles;
      deletes := [];
      names := [];
      exited := false;
    }

    /** capture_to_file: capture, create fn, wrap it, download, delete on the camera. */
    method CaptureToFile(fn: string, cap: CaptureReply, t: TransferReply) returns (ret: int)
      modifies this
      ensures Returned(State(), ret) == AfterCaptureToFile(old(State()), fn, cap, t)
    {
      if cap.ret < GP_OK {
        return cap.ret;
      }
      device := device + {cap.path};
      if t.created {
        local := local + {fn};
      }
      if t.wrapRet < GP_OK {
        local := local - {fn};
        return t.wrapRet;
      }
      if t.getRet < GP_OK {
        local := local - {fn};
        return t.getRet;
      }
      deletes := deletes + [cap.path];
      if t.deleteRet >= GP_OK {
        device := device - {cap.path};
      }
      return GP_OK;
    }

    /** gp_file_new, gp_camera_capture_preview, gp_file_save; any failure is exit(1). */
    method CapturePreview(r: PreviewReply)
      modifies this
      ensures State() == AfterPreview(old(State()), r)
    {
      if r.newRet != GP_OK {
        exited := true;
        return;
      }
      if r.captureRet != GP_OK {
        exited := true;
        return;
      }
      if r.saveRet != GP_OK {
        exited := true;
        return;
      }
      local := local + {PREVIEW_NAME};
    }

    /** The switch on the type of an event that was polled successfully. */
    method HandleEvent(event: CameraEvent, t: TransferReply)
      modifies this
      ensures State() == AfterEvent(old(State()), event, t)
    {
      match event
      case FileAdded(path) =>
        device := device + {path};
        var outputFile := ImageName(count);
        names := names + [outputFile];
        count := count + 1;
        if t.created {
          local := local + {outputFile};
        }
        // the replies of gp_file_new_from_fd and gp_camera_file_get are overwritten unread
        deletes := deletes + [path];
        if t.deleteRet >= GP_OK {
          device := device - {path};
        }
      case _ =>
    }

    /** The inner while loop: poll, dispatch, stop at the first error or TIMEOUT. */
    method DrainEvents(polls: seq<Poll>) returns (consumed: nat)
      modifies this
      ensures consumed == DrainLength(polls)
      ensures State() == AfterDrain(old(State()), polls)
    {
      consumed := 0;
      while consumed < |polls|
        invariant consumed <= |polls|
        invariant AfterDrain(old(State()), polls) == AfterDrain(State(), polls[consumed..])
        invariant DrainLength(polls) == consumed + DrainLength(polls[consumed..])
      {
        var p := polls[consumed];
        assert polls[consumed..][1..] == polls[consumed + 1..];
        consumed := consumed + 1;
        if p.ret != GP_OK {
          break;
        }
        HandleEvent(p.event, p.transfer);
        if p.event.Timeout? {
          break;
        }
      }
    }

    /** One pass of the outer loop; returns how many poll results the drain consumed. */
    method Iterate(cap: CaptureReply, t: TransferReply, preview: PreviewReply, polls: seq<Poll>) returns (consumed: nat)
      requires !exited
      modifies this
      ensures State() == AfterIteration(old(State()), cap, t, preview, polls)
      ensures consumed == if PreviewFails(preview) then 0 else DrainLength(polls)
    {
      consumed := 0;
      if captureNow {
        captureNow := false;
        var outputFile := ImageName(count);
        names := names + [outputFile];
        count := count + 1;
        var _ := CaptureToFile(outputFile, cap, t);
      }
      CapturePreview(preview);
      if exited {
        return;
      }
      consumed := DrainEvents(polls);
    }

    /** The outer loop, one pass per round, until a preview failure exits the process. */
    method Run(rounds: seq<Round>)
      modifies this
      ensures State() == AfterRun(old(State()), rounds)
    {
      var i := 0;
      while i < |rounds| && !exited
        invariant i <= |rounds|
        invariant AfterRun(old(State()), rounds) == AfterRun(State(), rounds[i..])
      {
        var r := rounds[i];
        assert rounds[i..][1..] == rounds[i + 1..];
        if r.signal {
          captureNow := true;
        }
        if r.reload {
          readConfig := true;
        }
        var _ := Iterate(r.capture, r.transfer, r.preview, r.polls);
        i := i + 1;
      }
    }
  }
}
