/** How a call to the device can fail, as far as recovery tells failures apart (src/device.rs). */
module MtpErrors {
  import opened Basics

  datatype MtpError = NotFound | StaleHandle | LinkLost | OtherError {
    /** Neither a dead token nor a dead session: for the caller to see. */
    predicate Plain() {
      NotFound? || OtherError?
    }
  }

  type MtpResult<+T> = Result<T, MtpError>
}
