/** What a flow tells the outside world and what it hears back. */
module World {
  import opened Common
  import opened Schema

  /** A request handed to its application, with the limiter it is counted by and whether it is a break. */
  datatype Event = Sent(h: Header, limiter: Option<nat>, breaks: bool)

  /** The outcome of a condition: true, false, or an error of the script engine. */
  datatype Verdict = Yes | No | Fault

  /** How the select of Route ends: the handler finished first, or the context was done first and the
      handler took effect (`ran`) or not. */
  datatype Finish = Finished | Cut(ran: bool)

  /** Everything the outside world decides about one dispatched request. */
  datatype Reply = Reply(verdict: Verdict, text: string, jump: Option<string>, cancel: bool, finish: Finish)

  type Oracle = seq<Event> -> Reply
}
