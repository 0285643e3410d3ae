/** One conversation with the model: its sampling settings, its decoded
    context, the text waiting to be prefilled and how many tokens it still
    wants generated. The recurrent state tensors of a real agent are not part
    of this model. */
module Agents {

  /** A token id (`size_t` in the source). */
  type Token = nat

  /** `(size_t)-1`: what a rejected `add_context` returns. */
  const SizeMax: nat := 0xFFFF_FFFF_FFFF_FFFF

  /** The token a fresh agent resumes from. */
  const DefaultLastToken: Token := 187

  datatype Agent = Agent(
    stopSequences: seq<string>,
    quota: nat,            // max_queued_tokens: tokens still to generate
    temperature: real,
    tau: real,
    lastToken: Token,
    context: seq<Token>,
    queue: string,         // add_context_queue: text waiting to be prefilled
    busy: bool)

  /** Nothing queued, nothing to generate, not marked busy: `add_context` accepts. */
  predicate Idle(a: Agent) {
    a.quota == 0 && a.queue == "" && !a.busy
  }

  /** Busy with nothing that will ever clear the flag: no queued text and no
      tokens left to generate. */
  predicate Stuck(a: Agent) {
    a.busy && a.quota == 0 && a.queue == ""
  }

  /** A freshly created agent. */
  function NewAgent(): (a: Agent)
    ensures Idle(a) && a.context == [] && a.stopSequences == []
    ensures a.lastToken == DefaultLastToken
  {
    Agent([], 0, 0.9, 0.7, DefaultLastToken, [], "", false)
  }

  /** `add_context`: queues `text` for the next prefill and clears the
      context, or returns `(size_t)-1` and changes nothing when the agent is
      not idle. The encoding computed here is discarded by the source. */
  function AddContext(a: Agent, text: string): (r: (Agent, nat))
    ensures r.1 == 0 <==> Idle(a)
    ensures r.1 != 0 ==> r.1 == SizeMax && r.0 == a
    ensures r.1 == 0 ==> && r.0.queue == text && r.0.context == [] && r.0.busy
                         && r.0.quota == 0 && r.0.lastToken == a.lastToken
                         && r.0.stopSequences == a.stopSequences
                         && r.0.temperature == a.temperature && r.0.tau == a.tau
  {
    if a.quota != 0 || a.queue != "" || a.busy then
      (a, SizeMax)
    else
      (a.(queue := text, context := [], busy := true), 0)
  }

  /** `generate`: asks for `tokens` more tokens, replacing any earlier request. */
  function Generate(a: Agent, tokens: nat): Agent {
    a.(quota := tokens)
  }

  function SetTemperature(a: Agent, temperature: real): Agent {
    a.(temperature := temperature)
  }

  function SetTau(a: Agent, tau: real): Agent {
    a.(tau := tau)
  }

  function SetLastToken(a: Agent, token: Token): Agent {
    a.(lastToken := token)
  }

  /** `set_stop_sequences`: appends to the agent's stop sequences. */
  function SetStopSequences(a: Agent, sequences: seq<string>): Agent {
    a.(stopSequences := a.stopSequences + sequences)
  }

  /** `get_context`: the decoded context, or `""` for an empty context
      without consulting the tokenizer. */
  function GetContext(a: Agent, decode: seq<Token> -> string): (r: string)
    ensures a.context == [] ==> r == ""
    ensures a.context != [] ==> r == decode(a.context)
  {
    if |a.context| == 0 then "" else decode(a.context)
  }

  /** A second `add_context` is refused until the first has been prefilled. */
  lemma AddContextTwice(a: Agent, first: string, second: string)
    requires AddContext(a, first).1 == 0
    ensures AddContext(AddContext(a, first).0, second) == (AddContext(a, first).0, SizeMax)
  {
  }

  /** `add_context("")` leaves an agent marked busy with nothing queued. */
  lemma AddEmptyContextSticks(a: Agent)
    requires Idle(a)
    ensures Stuck(AddContext(a, "").0)
  {
  }

  /** Stop sequences accumulate across calls; they are never replaced. */
  lemma StopSequencesAccumulate(a: Agent, first: seq<string>, second: seq<string>)
    ensures SetStopSequences(SetStopSequences(a, first), second).stopSequences
         == a.stopSequences + first + second
  {
  }

  /** Each setter changes its own field only; the others are untouched. */
  lemma SettersAreIndependent(a: Agent, tokens: nat, temperature: real, tau: real, token: Token,
                              sequences: seq<string>)
    ensures Generate(a, tokens).quota == tokens
    ensures SetTemperature(a, temperature).temperature == temperature
    ensures SetTau(a, tau).tau == tau
    ensures SetLastToken(a, token).lastToken == token
    ensures Generate(a, tokens).(quota := a.quota) == a
    ensures SetTemperature(a, temperature).(temperature := a.temperature) == a
    ensures SetTau(a, tau).(tau := a.tau) == a
    ensures SetLastToken(a, token).(lastToken := a.lastToken) == a
    ensures SetStopSequences(a, sequences).(stopSequences := a.stopSequences) == a
  {
  }

  /** Requests that touch different fields can be made in either order. */
  lemma SettersCommute(a: Agent, tokens: nat, temperature: real, tau: real, token: Token,
                       sequences: seq<string>)
    ensures SetTau(SetTemperature(a, temperature), tau) == SetTemperature(SetTau(a, tau), temperature)
    ensures Generate(SetLastToken(a, token), tokens) == SetLastToken(Generate(a, tokens), token)
    ensures Generate(SetTemperature(a, temperature), tokens) == SetTemperature(Generate(a, tokens), temperature)
    ensures Generate(SetTau(a, tau), tokens) == SetTau(Generate(a, tokens), tau)
    ensures SetLastToken(SetTemperature(a, temperature), token) == SetTemperature(SetLastToken(a, token), temperature)
    ensures SetLastToken(SetTau(a, tau), token) == SetTau(SetLastToken(a, token), tau)
    ensures SetStopSequences(Generate(a, tokens), sequences) == Generate(SetStopSequences(a, sequences), tokens)
    ensures SetStopSequences(SetTemperature(a, temperature), sequences)
         == SetTemperature(SetStopSequences(a, sequences), temperature)
    ensures SetStopSequences(SetTau(a, tau), sequences) == SetTau(SetStopSequences(a, sequences), tau)
    ensures SetStopSequences(SetLastToken(a, token), sequences)
         == SetLastToken(SetStopSequences(a, sequences), token)
  {
  }

  /** An accepted `add_context` clears the context, so `get_context` reads
      `""` until the prefill and decode steps add tokens again. */
  lemma AddContextClearsContext(a: Agent, text: string, decode: seq<Token> -> string)
    requires AddContext(a, text).1 == 0
    ensures GetContext(AddContext(a, text).0, decode) == ""
  {
  }

  /** A rejected `add_context` leaves what `get_context` reads unchanged. */
  lemma RejectedAddContextKeepsContext(a: Agent, text: string, decode: seq<Token> -> string)
    requires !Idle(a)
    ensures GetContext(AddContext(a, text).0, decode) == GetContext(a, decode)
  {
  }
}
