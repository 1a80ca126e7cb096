/**
 The offline visit's own state changes (apps/edge/src/offline/operator.ts): what each capture does to
 the row before it is queued and stored. Weights arrive as whole thousandths of a kilogram.
 */
module Visits {
  import opened Wrappers
  import opened EdgeTypes
  import opened NetWeight

  datatype VisitError = GrossMissing | TareExceedsGross | BadWeight | NotReady

  function Opened(id: string, approvalRequired: bool): Visit {
    Visit(id, Identified, false, None, None, None, false, approvalRequired, [])
  }

  function CaptureGross(v: Visit, milli: int): Visit {
    v.(gross := Some(MilliToKg(milli)), localState := GrossCaptured)
  }

  function CaptureTare(v: Visit, milli: int): Result<Visit, VisitError> {
    if v.gross.None? then Err(GrossMissing)
    else
      match CalculateNetWeight(v.gross.value, MilliToKg(milli))
      case Err(_) => Err(BadWeight)
      case Ok(net) =>
        if net.tareExceedsGross then Err(TareExceedsGross)
        else Ok(v.(tare := Some(MilliToKg(milli)), net := Some(net.netAsDecimal),
                   tareExceedsGross := net.tareExceedsGross, localState := TareCaptured))
  }

  function Complete(v: Visit): Result<Visit, VisitError> {
    if v.gross.None? || v.tare.None? || v.net.None? || v.tareExceedsGross then Err(NotReady)
    else Ok(v.(localState := LocalCompleted, locallyCompleted := true))
  }

  function Pause(v: Visit): Visit {
    v.(localState := PausedApproval)
  }

  function Attach(v: Visit, eventId: Id): Visit {
    v.(eventIds := v.eventIds + [eventId])
  }

  /** The stored weights parse, and the net is the gross less the tare, exactly, and not negative. */
  ghost predicate NetExact(v: Visit) {
    && v.gross.Some? && v.tare.Some? && v.net.Some?
    && KgToMilli(v.gross.value).Ok? && KgToMilli(v.tare.value).Ok? && KgToMilli(v.net.value).Ok?
    && KgToMilli(v.net.value).value == KgToMilli(v.gross.value).value - KgToMilli(v.tare.value).value
    && KgToMilli(v.net.value).value >= 0
  }

  /** What every stored visit keeps: printable weights, and an exact net while its last capture is a tare. */
  ghost predicate WeightsOk(v: Visit) {
    && (v.gross.Some? ==> KgToMilli(v.gross.value).Ok?)
    && (v.localState.TareCaptured? ==> NetExact(v))
    && (v.tare.Some? <==> v.net.Some?)
  }

  lemma CaptureGrossKeeps(v: Visit, milli: int)
    requires WeightsOk(v)
    ensures WeightsOk(CaptureGross(v, milli))
  {
    ParseOfPrint(milli);
  }

  /** A tare is taken exactly when a gross is stored and the tare does not exceed it, and then the
      net is exact. */
  lemma CaptureTareExact(v: Visit, milli: int)
    requires WeightsOk(v)
    ensures CaptureTare(v, milli).Ok? <==> v.gross.Some? && milli <= KgToMilli(v.gross.value).value
    ensures CaptureTare(v, milli).Ok? ==>
      var r := CaptureTare(v, milli).value;
      && NetExact(r) && WeightsOk(r) && KgToMilli(r.tare.value) == Ok(milli)
      && r == v.(tare := r.tare, net := r.net, tareExceedsGross := false, localState := TareCaptured)
    ensures CaptureTare(v, milli).Err? ==>
      CaptureTare(v, milli).error == if v.gross.None? then GrossMissing else TareExceedsGross
  {
    ParseOfPrint(milli);
    if v.gross.Some? {
      NetPlusTareIsGross(v.gross.value, MilliToKg(milli));
    }
  }

  /** Recapturing the gross of a visit whose net is exact keeps it exact if and only if the new gross
      weighs what the old one did: a stored tare and net are not revised. */
  lemma RegrossKeepsNetIff(v: Visit, milli: int)
    requires NetExact(v)
    ensures NetExact(CaptureGross(v, milli)) <==> KgToMilli(v.gross.value) == Ok(milli)
  {
    ParseOfPrint(milli);
  }

  /** Completion never looks at the local state: straight after the tare the completed visit is exact,
      but a gross captured in between leaves a completed visit whose net is wrong. */
  lemma CompletionExactness(v: Visit, milli: int)
    requires NetExact(v) && !v.tareExceedsGross
    ensures Complete(v).Ok? && NetExact(Complete(v).value)
    ensures var w := Complete(CaptureGross(v, milli));
      w.Ok? && w.value.localState == LocalCompleted && (NetExact(w.value) <==> KgToMilli(v.gross.value) == Ok(milli))
  {
    RegrossKeepsNetIff(v, milli);
  }
}
