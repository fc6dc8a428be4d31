/** The plain data types declared in include/s3_resumable.h. */
module S3Types {

  /** The four states of an upload client (kUploadWait .. kUploadFailed). */
  datatype UploadState = Wait | Running | Success | Failed

  /** s3_resum_info_t: what the first checkpoint line records about an upload.
      Sizes and counts are unbounded: the 64-bit and 32-bit widths of the source are not
      modelled. */
  datatype ResumeInfo = ResumeInfo(
    path: string,
    bucket: string,
    key: string,
    uploadId: string,
    size: nat,
    partCount: nat)

  /** A default-initialised s3_resum_info_t: every string empty, every number 0. */
  const DefaultInfo: ResumeInfo := ResumeInfo("", "", "", "", 0, 0)
}
