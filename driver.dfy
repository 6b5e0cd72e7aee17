/** The robot driver (URBasic's `UrScriptExt`), kept opaque: the model only needs its identity. */
module Driver {
  /** One connection object to the arm's controller; each construction yields a distinct object. */
  class UrScriptExt {
    const host: string

    constructor (host: string)
      ensures this.host == host
    {
      this.host := host;
    }
  }
}
