/**
 * The libgphoto2 and filesystem calls the photobooth loop makes, seen only
 * through what they return. Each foreign call is an input to the model: the
 * reply the camera or the operating system gave at that point.
 */
module GPhoto {
  import opened Wrappers

  /** libgphoto2's success code; error codes are negative. */
  const GP_OK := 0

  /** A file on the camera, addressed by folder and name (CameraFilePath). */
  datatype CameraFilePath = CameraFilePath(folder: string, name: string)

  /**
   * What gp_camera_wait_for_event reports. `Other` stands for an event type
   * the switch has no case for (the `default:` branch), carrying its raw value.
   */
  datatype CameraEvent =
    | FileAdded(path: CameraFilePath)
    | FolderAdded(path: CameraFilePath)
    | CaptureComplete
    | Timeout
    | Unknown(message: Option<string>)
    | Other(tag: int)

  /** gp_camera_capture's return code and, when it succeeds, the new file on the camera. */
  datatype CaptureReply = CaptureReply(ret: int, path: CameraFilePath)

  /**
   * The replies of one download into a local file:
   * created   - open(fn, O_CREAT | O_WRONLY) succeeded, so fn now exists locally;
   * wrapRet   - gp_file_new_from_fd's return code;
   * getRet    - gp_camera_file_get's return code;
   * deleteRet - gp_camera_file_delete's return code (non-negative: the file is gone from the camera).
   */
  datatype TransferReply = TransferReply(created: bool, wrapRet: int, getRet: int, deleteRet: int)

  /** The return codes of gp_file_new, gp_camera_capture_preview and gp_file_save. */
  datatype PreviewReply = PreviewReply(newRet: int, captureRet: int, saveRet: int)

  /**
   * One gp_camera_wait_for_event call: its return code, the event it reports,
   * and the replies of the download the event may start.
   */
  datatype Poll = Poll(ret: int, event: CameraEvent, transfer: TransferReply)
}
