/**
 * The listening side shared by both layouts: `struct sev_server` and its
 * initialisation (`sev_server_init` in sev.c, `sev_listen` in sev/sev.c,
 * which have the same body). The results of `socket`, `bind` and `listen`
 * are inputs; only the comparison with -1 that the code makes is modelled.
 */
module Listener {

  /**
   * `struct sev_server`: the listening descriptor, whether its accept watcher
   * is started, whether each callback is set, and whether the user
   * data field is set.
   */
  class Server {
    var sd: int
    var watching: bool
    var openCb: bool
    var readCb: bool
    var closeCb: bool
    var hasData: bool

    /** The caller's struct, with whatever it holds before initialisation. */
    constructor (sd: int, openCb: bool, readCb: bool, closeCb: bool, hasData: bool)
      ensures this.sd == sd && !watching
      ensures this.openCb == openCb && this.readCb == readCb && this.closeCb == closeCb
      ensures this.hasData == hasData
    {
      this.sd := sd;
      watching := false;
      this.openCb := openCb;
      this.readCb := readCb;
      this.closeCb := closeCb;
      this.hasData := hasData;
    }

    /**
     * `sev_server_init` / `sev_listen`: fail with -1, leaving the struct
     * untouched, as soon as `socket`, `bind` or `listen` reports -1; else
     * start the accept watcher and zero the struct except for the
     * descriptor and the watcher, so that every callback is unset.
     */
    method Init(socketResult: int, bindResult: int, listenResult: int) returns (r: int)
      modifies this
      ensures r == -1 || r == 0
      ensures r == -1 <==> socketResult == -1 || bindResult == -1 || listenResult == -1
      ensures r == -1 ==> unchanged(this)
      ensures r == 0 ==> sd == socketResult && watching
      ensures r == 0 ==> !openCb && !readCb && !closeCb && !hasData
    {
      if socketResult == -1 {
        return -1;
      }
      if bindResult == -1 {
        return -1;
      }
      if listenResult == -1 {
        return -1;
      }
      openCb, readCb, closeCb, hasData := false, false, false, false;
      sd := socketResult;
      watching := true;
      r := 0;
    }
  }
}
