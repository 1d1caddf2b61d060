/** Lines of the JSON-RPC 2.0 stream, as far as the server looks into them. */
module Wire {
  import opened Sequences
  import Grouping

  /** A JSON value in an id position. */
  datatype Id = NullId | Number(n: int) | Text(s: string) | Structured(code: int)

  /** The parts of `params` that decide what happens: a cancel's target, a capability, a prompt's name. */
  datatype Params = Params(requestId: Option<Id>, elicitationForm: bool, namesSetupPrompt: bool)

  /** The parts of `result` in a dialog's answer. */
  datatype Answer = Answer(accepted: bool, selected: seq<Grouping.Pick>)

  datatype Content =
    | Blank
    | NotJson
    | NotObject
    | Object(versioned: bool, id: Option<Id>, verb: Option<string>, params: Option<Params>, result: Option<Answer>)

  /** `mentionsCancel` tells whether the raw text contains the cancel method's name literally. */
  datatype Line = Line(mentionsCancel: bool, content: Content)

  const CANCELLED := "notifications/cancelled"

  /** The request that a cancel notification names, as the reader thread decides it. */
  function CancelTarget(line: Line): Option<Id> {
    if line.mentionsCancel && line.content.Object? && line.content.verb == Some(CANCELLED) && line.content.params.Some?
    then line.content.params.value.requestId else None
  }
}
