/** Messages A, D and EncapD and the DIGESTS windows: kept as plain bytes by both builds. */
module PlainTranscripts {
  import opened Codec
  import opened ManagedBuffers
  import opened Transcript
  import opened Steps

  class PlainTranscript {
    const lim: Limits
    var a: Bytes
    var d: Bytes
    var encapD: Bytes
    var dClosed: bool
    var encapDClosed: bool

    function View(ct: Bytes, cm: Option<Bytes>): (r: Common)
      reads this
    {
      Common(a, d, encapD, dClosed, encapDClosed, ct, cm)
    }

    constructor (lim: Limits)
      ensures this.lim == lim && View([], None) == Common([], [], [], false, false, [], None)
    {
      this.lim := lim;
      a, d, encapD, dClosed, encapDClosed := [], [], [], false, false;
    }

    method AppendA(m: Bytes) returns (status: Status)
      modifies this
      ensures forall ct, cm :: View(ct, cm) == StepCommon(lim, old(View(ct, cm)), Op.AppendA(m))
      ensures status == if Fits(old(a), VCA_SIZE, m) then Success else BufferFull
    {
      status := if Fits(a, VCA_SIZE, m) then Success else BufferFull;
      a := Appended(a, VCA_SIZE, m);
    }

    /** A DIGESTS outside its window, or after the first, is accepted and ignored. */
    method AppendD(m: Bytes) returns (status: Status)
      modifies this
      ensures forall ct, cm :: View(ct, cm) == StepCommon(lim, old(View(ct, cm)), Op.AppendD(m))
      ensures status == if TakesD(old(View([], None))) && |m| > DigestsSize(lim) then BufferFull else Success
    {
      if dClosed {
        return Success;
      }
      if |d| != 0 {
        return Success;
      }
      status := if Fits(d, DigestsSize(lim), m) then Success else BufferFull;
      d := Appended(d, DigestsSize(lim), m);
    }

    method AppendEncapD(m: Bytes) returns (status: Status)
      modifies this
      ensures forall ct, cm :: View(ct, cm) == StepCommon(lim, old(View(ct, cm)), Op.AppendEncapD(m))
      ensures status == if TakesEncapD(old(View([], None))) && |m| > DigestsSize(lim) then BufferFull else Success
    {
      if encapDClosed {
        return Success;
      }
      if |encapD| != 0 {
        return Success;
      }
      status := if Fits(encapD, DigestsSize(lim), m) then Success else BufferFull;
      encapD := Appended(encapD, DigestsSize(lim), m);
    }

    method ResetD()
      modifies this
      ensures forall ct, cm :: View(ct, cm) == StepCommon(lim, old(View(ct, cm)), Op.ResetD)
    {
      d := [];
      dClosed := false;
    }

    method ResetEncapD()
      modifies this
      ensures forall ct, cm :: View(ct, cm) == StepCommon(lim, old(View(ct, cm)), Op.ResetEncapD)
    {
      encapD := [];
      encapDClosed := false;
    }

    method CloseWindow(request: Request, negotiated: bool, authenticated: bool, inSession: bool)
      modifies this
      ensures forall ct, cm :: View(ct, cm) ==
                StepCommon(lim, old(View(ct, cm)), Op.RequestCode(request, negotiated, authenticated, inSession))
    {
      if !request.GetDigests? && negotiated {
        dClosed := true;
      }
    }

    method CloseEncapWindow(request: Request)
      modifies this
      ensures forall ct, cm :: View(ct, cm) == StepCommon(lim, old(View(ct, cm)), Op.EncapRequestCode(request))
    {
      if !request.GetDigests? && |encapD| == 0 {
        encapDClosed := true;
      }
    }
  }
}
