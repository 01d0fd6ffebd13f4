/** What the library reads from and hands back to Postman besides the
    ledger: the global variables it is configured by, and the request to
    run next. */
module Session {

  /** The globals, read as integers (`parseInt(..., 10)`), and the name of
      the item a poll retries. */
  datatype Globals = Globals(
    polledMode: int,       // _f5_enable_polled_mode
    bypassTimeout: int,    // _f5_poll_bypass_timeout
    pollIterator: int,     // _f5_poll_iterator
    pollMaxTries: int,     // _f5_poll_max_tries
    pollUseInternal: int,  // _f5_poll_useinternal
    pollWait: int,         // _f5_poll_wait
    pollCurr: string)      // _f5_poll_curr
  {
    predicate Polled() { polledMode != 0 }
    predicate Bypass() { bypassTimeout != 0 }

    /** A failure halts the collection run unless polling or the bypass
        is on. */
    predicate HaltsOnFailure() { !Polled() && !Bypass() }
  }

  /** `postman.setNextRequest`: not called, called with `null` (stop the
      run), or called with the name of an item. */
  datatype NextReq = Unchanged | Halt | Goto(name: string)
}
