/** The callback as the streaming thread sees it: the buffers of one delivery are frames that Session.Source.FeederPush
    may push one after another. */
module Feeder {
  import opened AnnexB
  import opened PipelineSpec
  import opened PipelineLaws
  import opened Protocol

  /** The pushed buffers of a delivery as frames of a stream. */
  ghost function Pushed(format: Format, stream: nat, d: Delivery, r: Outcome): seq<Frame>
    requires |r.parts| == |r.buffers|
  {
    seq(|r.buffers|, k requires 0 <= k < |r.buffers| =>
      Frame(stream, r.buffers[k].offset, BearsIdr(format, AccessUnitsOf(format, d.data), r.parts[k])))
  }

  /** The frames may be pushed in this order from a gate and a counter. */
  ghost predicate Pushes(hadIdr: bool, offset: nat, stream: nat, frames: seq<Frame>) {
    forall k :: 0 <= k < |frames| ==> MayPush(hadIdr || k > 0, offset + k, stream, frames[k])
  }

  /** Every callback, whatever it delivers, pushes frames as the session's feeder may, and leaves the gate and the
      counter where these pushes leave them. */
  lemma {:induction false} CallbackIsPushes(format: Format, frameInterval: int, st: State, d: Delivery, stream: nat)
    ensures var r := Callback(format, frameInterval, st, d);
            && |r.parts| == |r.buffers|
            && Pushes(st.hadIdr, st.frameOffset, stream, Pushed(format, stream, d, r))
            && r.st.hadIdr == (st.hadIdr || Pushed(format, stream, d, r) != [])
            && r.st.frameOffset == st.frameOffset + |Pushed(format, stream, d, r)|
  {
    CallbackFeeds(format, frameInterval, st, d);
  }
}
