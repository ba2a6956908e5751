/** The download progress counter (class ProgressBar of the connector). The
    optional terminal meter and the log lines are not part of this model:
    only the byte accounting and the close on context exit are. */
module Progress {
  import opened Http

  class ProgressBar {
    /** Expected size from the content-length header; 0 when unknown. */
    const total: int
    /** Bytes reported through `Update` so far. */
    var current: int
    /** The byte count announced by `Close`; None while the bar is open. */
    var report: Option<int>

    constructor (total: int)
      ensures this.total == total && current == 0 && report == None
    {
      this.total := total;
      current := 0;
      report := None;
    }

    /** Advance the counter by one chunk's length. */
    method Update(n: int)
      modifies this`current
      ensures current == old(current) + n
    {
      current := current + n;
    }

    /** Finish the bar, announcing the number of bytes downloaded. */
    method Close()
      modifies this`report
      ensures report == Some(current)
    {
      report := Some(current);
    }

    /** Leaving the `with` block closes the bar, whether or not the block raised. */
    method Exit()
      modifies this`report
      ensures report == Some(current)
    {
      Close();
    }
  }
}
