/** Per-exchange state, shared by the server's sessions and the client's calls. */
module Transaction {
  import opened Bytes
  import opened Buffers
  import opened Transfer

  /** `COMM_TIMEOUT`, in nanoseconds like every other duration here. */
  const COMM_TIMEOUT: int := 5 * 1000 * NS_PER_MS

  class Transaction {
    var inpCmd: u32
    var inpCode: u32
    var outCmd: u32
    var outCode: u32
    const inpHdr: Storage
    const inpPay: Storage
    const outHdr: Storage
    const outPay: Storage
    var tvStart: int
    var tvExpiration: int

    ghost const Repr: set<object> := {this, inpHdr, inpPay, outHdr, outPay}

    /** The four buffers are different objects. */
    ghost predicate Valid() {
      && inpHdr != inpPay && inpHdr != outHdr && inpHdr != outPay
      && inpPay != outHdr && inpPay != outPay && outHdr != outPay
    }

    constructor ()
      ensures Valid() && fresh(Repr)
      ensures inpCmd == inpCode == outCmd == outCode == 0
      ensures inpHdr.data == inpPay.data == outHdr.data == outPay.data == []
    {
      inpCmd, inpCode, outCmd, outCode := 0, 0, 0, 0;
      tvStart, tvExpiration := 0, 0;
      inpHdr := new Storage();
      inpPay := new Storage();
      outHdr := new Storage();
      outPay := new Storage();
    }

    method ClearBuffers()
      requires Valid()
      modifies inpHdr, inpPay, outHdr, outPay
      ensures inpHdr.data == inpPay.data == outHdr.data == outPay.data == []
    {
      inpHdr.Clear();
      inpPay.Clear();
      outHdr.Clear();
      outPay.Clear();
    }

    /** Clears the buffers and sets the deadline `expiration` after now; the codes survive. */
    method Start(expiration: int, link: Link)
      requires Valid()
      modifies this`tvStart, this`tvExpiration, inpHdr, inpPay, outHdr, outPay, link`clockCount
      ensures inpHdr.data == inpPay.data == outHdr.data == outPay.data == []
      ensures tvStart == link.clock(old(link.clockCount)) && tvExpiration == tvStart + expiration
    {
      ClearBuffers();
      tvStart := link.Now();
      tvExpiration := tvStart + expiration;
    }

    /** Moves the deadline to `expiration` after the start of the exchange, not after now. */
    method ExpirationSet(expiration: int)
      modifies this`tvExpiration
      ensures tvExpiration == tvStart + expiration
    {
      tvExpiration := tvStart + expiration;
    }

    /** Forgets the exchange, except the codes of the last reply and the last request. */
    method Reset()
      requires Valid()
      modifies this`inpCmd, this`tvStart, this`tvExpiration, inpHdr, inpPay, outHdr, outPay
      ensures inpHdr.data == inpPay.data == outHdr.data == outPay.data == []
      ensures inpCmd == 0 && tvStart == 0 && tvExpiration == 0
    {
      ClearBuffers();
      inpCmd := 0;
      tvStart := 0;
      tvExpiration := 0;
    }
  }
}
