/** One-shot reply channels: a sender that can be used or dropped once. */
module Oneshot {
  /** `Open` while the sender is alive and unused. */
  datatype Chan<+R> = Open | Sent(reply: R) | Dropped

  type CallId = nat

  type Chans<R> = map<CallId, Chan<R>>

  /** Use the sender; a spent one cannot be used again. */
  function Send<R>(chans: Chans<R>, c: CallId, reply: R): Chans<R> {
    if c in chans && chans[c].Open? then chans[c := Sent(reply)] else chans
  }

  /** Drop the sender unused. */
  function Drop<R>(chans: Chans<R>, c: CallId): Chans<R> {
    if c in chans && chans[c].Open? then chans[c := Dropped] else chans
  }

  /** Use every sender of a set with the same reply. */
  function SendAll<R>(chans: Chans<R>, cs: set<CallId>, reply: R): Chans<R> {
    map c | c in chans :: if c in cs && chans[c].Open? then Sent(reply) else chans[c]
  }

  /** Nothing that was spent is ever altered, and no channel disappears. */
  ghost predicate Extends<R>(before: Chans<R>, after: Chans<R>) {
    before.Keys <= after.Keys && forall c :: c in before && !before[c].Open? ==> after[c] == before[c]
  }

  lemma SendAllStep<R>(chans: Chans<R>, cs: set<CallId>, c: CallId, reply: R)
    ensures SendAll(chans, cs + {c}, reply) == Send(SendAll(chans, cs, reply), c, reply)
  {
  }

  lemma SendAllNone<R>(chans: Chans<R>, reply: R)
    ensures SendAll(chans, {}, reply) == chans
  {
  }
}
