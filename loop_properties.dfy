/**
 * What the photobooth loop guarantees, stated about the After* functions of
 * module Photobooth: cleanup on each exit path of capture_to_file, counter
 * arithmetic, the latch, the drain's stopping rule, and fresh image names.
 */
module LoopProperties {
  import opened GPhoto
  import opened ImageNames
  import opened Photobooth

  // ---------------------------------------------------------------------------
  // capture_to_file

  /** A failed gp_camera_capture returns its error and touches nothing. */
  lemma CaptureFailureChangesNothing(w: World, fn: string, cap: CaptureReply, t: TransferReply)
    requires cap.ret < GP_OK
    ensures AfterCaptureToFile(w, fn, cap, t) == Returned(w, cap.ret)
  {
  }

  /**
   * When wrapping the descriptor or downloading fails, fn is gone from the
   * local files, the captured file stays on the camera, no delete is issued,
   * and the failing call's error is returned.
   */
  lemma TransferFailureCleansUp(w: World, fn: string, cap: CaptureReply, t: TransferReply)
    requires cap.ret >= GP_OK
    requires t.wrapRet < GP_OK || t.getRet < GP_OK
    ensures var r := AfterCaptureToFile(w, fn, cap, t);
      && r.ret == (if t.wrapRet < GP_OK then t.wrapRet else t.getRet)
      && r.world.local == w.local - {fn}
      && r.world.device == w.device + {cap.path}
      && r.world.deletes == w.deletes
      && r.world.count == w.count && r.world.captureNow == w.captureNow
  {
  }

  /**
   * capture_to_file returns GP_OK exactly when capture, wrap and download all
   * succeed, whatever the delete replies; only then is a delete issued, for
   * the captured file, and the local file exists iff open created it.
   */
  lemma CaptureDeletesOnlyAfterDownload(w: World, fn: string, cap: CaptureReply, t: TransferReply)
    ensures var r := AfterCaptureToFile(w, fn, cap, t);
      var downloaded := cap.ret >= GP_OK && t.wrapRet >= GP_OK && t.getRet >= GP_OK;
      && (r.ret == GP_OK <==> downloaded)
      && (!downloaded ==> r.ret < GP_OK && r.world.deletes == w.deletes)
      && (downloaded ==> r.world.deletes == w.deletes + [cap.path])
      && (downloaded ==> (fn in r.world.local <==> fn in w.local || t.created))
      && (downloaded ==> (cap.path in r.world.device <==> t.deleteRet < GP_OK))
  {
  }

  // ---------------------------------------------------------------------------
  // The event switch

  /** FOLDER_ADDED, CAPTURE_COMPLETE, TIMEOUT, UNKNOWN and unrecognised types change nothing. */
  lemma OtherEventsChangeNothing(w: World, event: CameraEvent, t: TransferReply)
    requires !event.FileAdded?
    ensures AfterEvent(w, event, t) == w
  {
  }

  /**
   * FILE_ADDED takes the next image number and always issues the delete; the
   * reported file leaves the camera exactly when the delete succeeds. The
   * return codes of gp_file_new_from_fd and gp_camera_file_get are never
   * looked at, and a failed download leaves the local file in place.
   */
  lemma FileAddedIgnoresDownload(w: World, path: CameraFilePath, t: TransferReply, wrapRet: int, getRet: int)
    ensures var w' := AfterEvent(w, FileAdded(path), t);
      && w' == AfterEvent(w, FileAdded(path), t.(wrapRet := wrapRet, getRet := getRet))
      && w'.count == w.count + 1
      && w'.local == (if t.created then w.local + {ImageName(w.count)} else w.local)
      && w'.deletes == w.deletes + [path]
      && w'.names == w.names + [ImageName(w.count)]
      && (path in w'.device <==> t.deleteRet < GP_OK)
      && w'.device - {path} == w.device - {path}
      && w'.captureNow == w.captureNow && w'.readConfig == w.readConfig && w'.exited == w.exited
  {
  }

  // ---------------------------------------------------------------------------
  // The drain

  /** The counter grows by the number of FILE_ADDED events among the consumed polls. */
  lemma {:induction false} DrainCounter(w: World, polls: seq<Poll>)
    ensures AfterDrain(w, polls).count == w.count + CountFileAdded(polls[..DrainLength(polls)])
    decreases |polls|
  {
    if polls != [] && polls[0].ret == GP_OK {
      var handled := AfterEvent(w, polls[0].event, polls[0].transfer);
      var n := DrainLength(polls);
      if polls[0].event.Timeout? {
        assert polls[..n] == [polls[0]];
      } else {
        DrainCounter(handled, polls[1..]);
        assert polls[..n][1..] == polls[1..][..DrainLength(polls[1..])];
      }
    } else if polls != [] {
      assert polls[..DrainLength(polls)] == [polls[0]];
    }
  }

  /** Poll results after the one that stops the drain make no difference. */
  lemma {:induction false} DrainIgnoresUnconsumed(w: World, polls: seq<Poll>, k: nat)
    requires DrainLength(polls) <= k <= |polls|
    ensures AfterDrain(w, polls[..k]) == AfterDrain(w, polls)
    ensures DrainLength(polls[..k]) == DrainLength(polls)
    decreases |polls|
  {
    if polls != [] && !Stops(polls[0]) {
      var handled := AfterEvent(w, polls[0].event, polls[0].transfer);
      DrainIgnoresUnconsumed(handled, polls[1..], k - 1);
      assert polls[..k][1..] == polls[1..][..k - 1];
    }
  }

  /** A drain that sees no FILE_ADDED leaves everything as it was. */
  lemma {:induction false} DrainWithoutFileAddedChangesNothing(w: World, polls: seq<Poll>)
    requires forall i :: 0 <= i < DrainLength(polls) && polls[i].ret == GP_OK ==> !polls[i].event.FileAdded?
    ensures AfterDrain(w, polls) == w
    decreases |polls|
  {
    if polls != [] && polls[0].ret == GP_OK && !polls[0].event.Timeout? {
      forall i | 0 <= i < DrainLength(polls[1..]) && polls[1..][i].ret == GP_OK
        ensures !polls[1..][i].event.FileAdded?
      {
        assert polls[1..][i] == polls[i + 1];
      }
      DrainWithoutFileAddedChangesNothing(w, polls[1..]);
    }
  }

  /**
   * The drain never touches the latches or the exit state, and every local
   * file it creates is the image name of a counter value it handed out.
   */
  lemma {:induction false} DrainCreatesOnlyNewImages(w: World, polls: seq<Poll>)
    ensures var w' := AfterDrain(w, polls);
      && OnlyNewImages(w, w')
      && w'.captureNow == w.captureNow && w'.readConfig == w.readConfig && w'.exited == w.exited
    decreases |polls|
  {
    if polls != [] && polls[0].ret == GP_OK {
      var handled := AfterEvent(w, polls[0].event, polls[0].transfer);
      EventCreatesOnlyNewImages(w, polls[0].event, polls[0].transfer);
      if !polls[0].event.Timeout? {
        DrainCreatesOnlyNewImages(handled, polls[1..]);
        OnlyNewImagesTransitive(w, handled, AfterDrain(handled, polls[1..]));
      }
    }
  }

  /**
   * When every consumed FILE_ADDED opened its file, the drain creates exactly
   * one local file per counter value it handed out.
   */
  lemma {:induction false} DrainCreatesOneFilePerEvent(w: World, polls: seq<Poll>)
    requires forall i :: 0 <= i < DrainLength(polls) && polls[i].ret == GP_OK && polls[i].event.FileAdded? ==> polls[i].transfer.created
    ensures AfterDrain(w, polls).local == w.local + ImageNamesBetween(w.count, AfterDrain(w, polls).count)
    decreases |polls|
  {
    if polls != [] && polls[0].ret == GP_OK {
      var handled := AfterEvent(w, polls[0].event, polls[0].transfer);
      var w' := AfterDrain(w, polls);
      if polls[0].event.Timeout? {
        assert ImageNamesBetween(w.count, w.count) == {};
      } else {
        forall i | 0 <= i < DrainLength(polls[1..]) && polls[1..][i].ret == GP_OK && polls[1..][i].event.FileAdded?
          ensures polls[1..][i].transfer.created
        {
          assert polls[1..][i] == polls[i + 1];
        }
        DrainCreatesOneFilePerEvent(handled, polls[1..]);
        DrainCreatesOnlyNewImages(handled, polls[1..]);
        if polls[0].event.FileAdded? {
          ImageNamesBetweenSplit(w.count, w'.count);
        }
      }
    } else {
      assert ImageNamesBetween(w.count, w.count) == {};
    }
  }

  // ---------------------------------------------------------------------------
  // One pass and a run of passes

  /**
   * The latch: when set, it is cleared, one capture is made under the name of
   * the current counter value and the counter goes up by one; when clear,
   * the step changes nothing.
   */
  lemma OnDemandLatch(w: World, cap: CaptureReply, t: TransferReply)
    ensures var w' := AfterOnDemand(w, cap, t);
      && !w'.captureNow
      && w'.count == w.count + (if w.captureNow then 1 else 0)
      && (!w.captureNow ==> w' == w)
      && (w.captureNow ==> |w'.deletes| <= |w.deletes| + 1)
      && (w.captureNow ==> w'.local - {ImageName(w.count)} == w.local - {ImageName(w.count)})
      && (w.captureNow ==> w'.device - {cap.path} == w.device - {cap.path})
      && (w.captureNow ==> w'.names == w.names + [ImageName(w.count)])
      && w'.readConfig == w.readConfig && w'.exited == w.exited
  {
  }

  /**
   * A preview failure ends the process in exit(1) before the drain runs;
   * otherwise preview.jpg exists and the pass goes on to the drain.
   */
  lemma PreviewFailureIsTerminal(w: World, cap: CaptureReply, t: TransferReply, preview: PreviewReply, polls: seq<Poll>)
    requires !w.exited
    ensures var w' := AfterIteration(w, cap, t, preview, polls);
      && (w'.exited <==> PreviewFails(preview))
      && (PreviewFails(preview) ==> w' == AfterOnDemand(w, cap, t).(exited := true))
      && (!PreviewFails(preview) ==> PREVIEW_NAME in w'.local)
  {
    if !PreviewFails(preview) {
      var previewed := AfterPreview(AfterOnDemand(w, cap, t), preview);
      DrainCreatesOnlyNewImages(previewed, polls);
      DrainKeepsFiles(previewed, polls, PREVIEW_NAME);
    }
  }

  /**
   * One pass adds to the counter one for a set latch plus one per FILE_ADDED
   * the drain consumed; the latch ends clear and read_config is untouched.
   */
  lemma IterationCounter(w: World, cap: CaptureReply, t: TransferReply, preview: PreviewReply, polls: seq<Poll>)
    requires !w.exited
    ensures var w' := AfterIteration(w, cap, t, preview, polls);
      && w'.count == w.count + (if w.captureNow then 1 else 0)
                    + (if PreviewFails(preview) then 0 else CountFileAdded(polls[..DrainLength(polls)]))
      && !w'.captureNow
      && w'.readConfig == w.readConfig
  {
    var previewed := AfterPreview(AfterOnDemand(w, cap, t), preview);
    DrainCounter(previewed, polls);
    DrainCreatesOnlyNewImages(previewed, polls);
  }

  /** Every local file a pass creates is preview.jpg or the name of a counter value it handed out. */
  lemma IterationCreatesOnlyNewImages(w: World, cap: CaptureReply, t: TransferReply, preview: PreviewReply, polls: seq<Poll>)
    requires !w.exited
    ensures OnlyNewImages(w, AfterIteration(w, cap, t, preview, polls))
  {
    var captured := AfterOnDemand(w, cap, t);
    var previewed := AfterPreview(captured, preview);
    assert OnlyNewImages(w, captured) by {
      if w.captureNow {
        assert ImageName(w.count) in ImageNamesBetween(w.count, w.count + 1);
      }
    }
    assert OnlyNewImages(captured, previewed);
    OnlyNewImagesTransitive(w, captured, previewed);
    if !PreviewFails(preview) {
      DrainCreatesOnlyNewImages(previewed, polls);
      OnlyNewImagesTransitive(w, previewed, AfterDrain(previewed, polls));
    }
  }

  /**
   * Over any run the counter never goes down, the names handed out are those
   * of the counter values used during the run, in order, and every local
   * file that appears is preview.jpg or one of them. read_config, once set,
   * is never cleared.
   */
  lemma {:induction false} RunCreatesOnlyNewImages(w: World, rounds: seq<Round>)
    ensures OnlyNewImages(w, AfterRun(w, rounds))
    ensures w.readConfig ==> AfterRun(w, rounds).readConfig
    decreases |rounds|
  {
    if rounds != [] && !w.exited {
      var r := rounds[0];
      var s := Signalled(w, r.signal, r.reload);
      var next := AfterIteration(s, r.capture, r.transfer, r.preview, r.polls);
      IterationCreatesOnlyNewImages(s, r.capture, r.transfer, r.preview, r.polls);
      IterationCounter(s, r.capture, r.transfer, r.preview, r.polls);
      RunCreatesOnlyNewImages(next, rounds[1..]);
      OnlyNewImagesTransitive(w, next, AfterRun(next, rounds[1..]));
    }
  }

  /**
   * From a state whose names are those of 0, ..., count - 1 (as the loop
   * starts, with none), every run hands out one name per counter value and
   * never the same name twice.
   */
  lemma NoTwoCapturesShareAName(w: World, rounds: seq<Round>)
    requires w.names == NameRange(0, w.count)
    ensures var w' := AfterRun(w, rounds);
      && w'.names == NameRange(0, w'.count)
      && forall i, j :: 0 <= i < j < |w'.names| ==> w'.names[i] != w'.names[j]
  {
    var w' := AfterRun(w, rounds);
    RunCreatesOnlyNewImages(w, rounds);
    NameRangeAppend(0, w.count, w'.count);
    NameRangeDistinct(0, w'.count);
  }

  /** Saving the preview never overwrites a full capture: no image name is preview.jpg. */
  lemma PreviewIsNotAnImage(n: nat)
    ensures ImageName(n) != PREVIEW_NAME
  {
    ImageNameLength(n);
  }

  // ---------------------------------------------------------------------------
  // Helpers

  lemma OnlyNewImagesTransitive(a: World, b: World, c: World)
    requires OnlyNewImages(a, b) && OnlyNewImages(b, c)
    ensures OnlyNewImages(a, c)
  {
    NameRangeAppend(a.count, b.count, c.count);
  }

  /** One dispatched event hands out at most the next name and creates no other file. */
  lemma EventCreatesOnlyNewImages(w: World, event: CameraEvent, t: TransferReply)
    ensures var w' := AfterEvent(w, event, t);
      && OnlyNewImages(w, w')
      && w'.captureNow == w.captureNow && w'.readConfig == w.readConfig && w'.exited == w.exited
  {
    if event.FileAdded? {
      assert ImageName(w.count) in ImageNamesBetween(w.count, w.count + 1);
      assert NameRange(w.count, w.count + 1) == [ImageName(w.count)];
    } else {
      assert NameRange(w.count, w.count) == [];
    }
  }

  lemma ImageNamesBetweenSplit(lo: nat, hi: nat)
    requires lo < hi
    ensures ImageNamesBetween(lo, hi) == {ImageName(lo)} + ImageNamesBetween(lo + 1, hi)
  {
  }

  /** The drain never removes a local file. */
  lemma {:induction false} DrainKeepsFiles(w: World, polls: seq<Poll>, f: string)
    requires f in w.local
    ensures f in AfterDrain(w, polls).local
    decreases |polls|
  {
    if polls != [] && polls[0].ret == GP_OK && !polls[0].event.Timeout? {
      DrainKeepsFiles(AfterEvent(w, polls[0].event, polls[0].transfer), polls[1..], f);
    }
  }
}
