/** The batching scheduler: a pool of agents sharing one model. Each `listen`
    step first prefills every agent's queued text in chunks, then advances
    every agent that still wants tokens by one token in a single batched
    forward call.

    The tokenizer, the model's forward pass and the sampler are parameters:
    `encode` and `decode` stand for the tokenizer, `sample(slot, agent)` for
    the token the sampler draws from the logits of batch slot `slot` with the
    agent's temperature and tau. Instead of running the model, a step reports
    the token batches it would have fed it. */
module Scheduler {
  import opened Outcomes
  import opened Seqs
  import opened Text
  import opened Agents

  /** The input of one forward call: a batch of token sequences. */
  type Call = seq<seq<Token>>

  datatype Pool = Pool(agents: seq<Agent>, maxAgents: nat)

  /** What one `listen` leaves behind, and the forward calls it made in order. */
  datatype Step = Step(pool: Pool, calls: seq<Call>)

  /** No more agents than the batch size allows. */
  predicate Valid(p: Pool) {
    |p.agents| <= p.maxAgents
  }

  /** `createAgent`: adds a fresh agent and returns its index, or returns
      nothing and changes nothing when the pool is full. */
  function CreateAgent(p: Pool): (r: (Pool, Option<nat>))
    ensures r.1.Some? <==> |p.agents| < p.maxAgents
    ensures r.1.Some? ==> && r.1.value == |p.agents| && |r.0.agents| == |p.agents| + 1
                          && r.0.agents[r.1.value] == NewAgent()
                          && r.0.agents[..|p.agents|] == p.agents && r.0.maxAgents == p.maxAgents
    ensures r.1.None? ==> r.0 == p
    ensures Valid(p) ==> Valid(r.0)
  {
    if |p.agents| < p.maxAgents then
      (p.(agents := p.agents + [NewAgent()]), Some(|p.agents|))
    else
      (p, None)
  }

  // ---------------------------------------------------------------- prefill

  /** The tokens a list of chunks feeds beyond each chunk's leading token. */
  function Fed(chunks: seq<seq<Token>>): seq<Token> {
    if |chunks| == 0 then []
    else (if |chunks[0]| == 0 then [] else chunks[0][1..]) + Fed(chunks[1..])
  }

  /** The prefill loop from offset `oi` of the encoded text `toks`: each chunk
      is the agent's last token followed by up to `width` tokens of `toks`,
      never reaching the final token, which is held back as the new last
      token. `width` is the pool's batch size. */
  function PrefillLoop(toks: seq<Token>, width: nat, oi: nat, last: Token): (r: (seq<seq<Token>>, Token))
    requires |toks| >= 1
    requires width > 0 || oi + 1 >= |toks|
    ensures forall c :: 0 <= c < |r.0| ==> 2 <= |r.0[c]| <= width + 1 && r.0[c][0] == last
    ensures forall c :: 0 <= c < |r.0| - 1 ==> |r.0[c]| == width + 1
    ensures Fed(r.0) == toks[Min(oi, |toks| - 1)..|toks| - 1]
    ensures oi + 1 < |toks| ==> r.1 == toks[|toks| - 1]
    ensures oi + 1 >= |toks| ==> r.0 == [] && r.1 == last
    decreases |toks| - oi
  {
    var n := |toks|;
    if oi + 1 >= n then
      ([], last)
    else
      var hi := Min(oi + width, n - 1);
      var chunk := [last] + toks[oi..hi];
      var next := if oi + width >= n - 1 then toks[n - 1] else last;
      var rest := PrefillLoop(toks, width, oi + width, next);
      assert rest.0 != [] ==> next == last;
      assert Fed([chunk] + rest.0) == toks[oi..hi] + Fed(rest.0) by {
        assert ([chunk] + rest.0)[1..] == rest.0;
      }
      assert toks[oi..hi] + toks[hi..n - 1] == toks[oi..n - 1];
      ([chunk] + rest.0, rest.1)
  }

  /** The text can be prefilled: it encodes to at least one token, and a
      zero batch size would loop forever unless there is nothing to feed. */
  predicate PrefillOk(toks: seq<Token>, width: nat) {
    |toks| >= 1 && (width > 0 || |toks| < 2)
  }

  /** Each chunk is sent to the model as a batch of one sequence. */
  function Singletons(chunks: seq<seq<Token>>): (r: seq<Call>)
    ensures |r| == |chunks| && forall c :: 0 <= c < |r| ==> r[c] == [chunks[c]]
  {
    seq(|chunks|, c requires 0 <= c < |chunks| => [chunks[c]])
  }

  /** Prefills the agent's queued text, if any: the queue is emptied, the
      busy flag cleared and, when the text encodes to two or more tokens,
      the last token moved to the text's final token. */
  function Prefill(a: Agent, encode: string -> seq<Token>, width: nat): (r: (Agent, seq<Call>))
    requires a.queue != "" ==> PrefillOk(encode(a.queue), width)
  {
    if a.queue == "" then
      (a, [])
    else
      var chunks := PrefillLoop(encode(a.queue), width, 0, a.lastToken);
      (a.(lastToken := chunks.1, queue := "", busy := false), Singletons(chunks.0))
  }

  /** The first half of `listen` for one agent: prefill, then mark it busy
      when it still wants tokens. */
  function Admit(a: Agent, encode: string -> seq<Token>, width: nat): (r: (Agent, seq<Call>))
    requires a.queue != "" ==> PrefillOk(encode(a.queue), width)
    ensures r.0.queue == "" && r.0.quota == a.quota && r.0.context == a.context
    ensures r.0.stopSequences == a.stopSequences && r.0.temperature == a.temperature && r.0.tau == a.tau
    ensures r.0.busy <==> a.quota > 0 || (a.queue == "" && a.busy)
    ensures a.queue == "" ==> r.1 == [] && r.0.lastToken == a.lastToken
    ensures a.queue != "" ==> && (|encode(a.queue)| >= 2 ==> r.0.lastToken == encode(a.queue)[|encode(a.queue)| - 1])
                              && (|encode(a.queue)| < 2 ==> r.0.lastToken == a.lastToken && r.1 == [])
    ensures forall c :: 0 <= c < |r.1| ==>
      |r.1[c]| == 1 && 2 <= |r.1[c][0]| <= width + 1 && r.1[c][0][0] == a.lastToken
  {
    var b := Prefill(a, encode, width);
    (if b.0.quota > 0 then b.0.(busy := true) else b.0, b.1)
  }

  /** Every agent whose text is queued can be prefilled. */
  predicate Prefillable(p: Pool, encode: string -> seq<Token>) {
    forall i :: 0 <= i < |p.agents| && p.agents[i].queue != "" ==>
      PrefillOk(encode(p.agents[i].queue), p.maxAgents)
  }

  /** The agents after the prefill pass, and the prefill calls in agent order. */
  function AdmitAll(p: Pool, encode: string -> seq<Token>): (r: (seq<Agent>, seq<Call>))
    requires Prefillable(p, encode)
    ensures |r.0| == |p.agents|
    ensures forall i :: 0 <= i < |p.agents| ==> r.0[i] == Admit(p.agents[i], encode, p.maxAgents).0
  {
    var admitted := seq(|p.agents|, i requires 0 <= i < |p.agents| => Admit(p.agents[i], encode, p.maxAgents));
    (seq(|admitted|, i requires 0 <= i < |admitted| => admitted[i].0),
     Flatten(seq(|admitted|, i requires 0 <= i < |admitted| => admitted[i].1)))
  }

  // ---------------------------------------------------------------- decode

  /** The agents' quotas, in pool order. */
  function Quotas(agents: seq<Agent>): (r: seq<nat>)
    ensures |r| == |agents| && forall i :: 0 <= i < |r| ==> r[i] == agents[i].quota
  {
    seq(|agents|, i requires 0 <= i < |agents| => agents[i].quota)
  }

  /** The positions, from `from` on and in increasing order, of the positive
      quotas: the slots of the decode call. */
  function BatchFrom(quotas: seq<nat>, from: nat): (r: seq<nat>)
    ensures forall k :: 0 <= k < |r| ==> from <= r[k] < |quotas| && quotas[r[k]] > 0
    ensures forall i :: from <= i < |quotas| && quotas[i] > 0 ==> i in r
    ensures forall k, l :: 0 <= k < l < |r| ==> r[k] < r[l]
    decreases |quotas| - from
  {
    if from >= |quotas| then []
    else if quotas[from] > 0 then [from] + BatchFrom(quotas, from + 1)
    else BatchFrom(quotas, from + 1)
  }

  /** The decode batch: the indices of the agents that still want tokens. */
  function Batch(agents: seq<Agent>): (r: seq<nat>)
    ensures forall k :: 0 <= k < |r| ==> r[k] < |agents| && agents[r[k]].quota > 0
    ensures forall i :: 0 <= i < |agents| && agents[i].quota > 0 ==> i in r
    ensures forall k, l :: 0 <= k < l < |r| ==> r[k] < r[l]
  {
    BatchFrom(Quotas(agents), 0)
  }

  /** The decode call: one single-token sequence, the agent's last token, per
      batched agent. */
  function DecodeCall(agents: seq<Agent>, batch: seq<nat>): (r: Call)
    requires forall k :: 0 <= k < |batch| ==> batch[k] < |agents|
    ensures |r| == |batch| && forall k :: 0 <= k < |r| ==> r[k] == [agents[batch[k]].lastToken]
  {
    seq(|batch|, k requires 0 <= k < |batch| => [agents[batch[k]].lastToken])
  }

  /** The sampled token ends the generation: the last five context tokens and
      the new token decode to a text containing some stop sequence. Only
      checked for a nonzero token once the context holds more than five tokens. */
  predicate StopHit(a: Agent, token: Token, decode: seq<Token> -> string) {
    && |a.context| > 5 && token != 0
    && MatchesStop(decode(a.context[|a.context| - 5..] + [token]), a.stopSequences)
  }

  /** One agent's share of the decode step, given the token sampled for it.
      Token 0 and a stop-sequence hit both stop it, but only a stop-sequence
      hit drops its remaining quota to zero. */
  function DecodeAgent(a: Agent, token: Token, decode: seq<Token> -> string): (r: Agent)
    requires a.quota > 0
    ensures r.quota < a.quota
    ensures StopHit(a, token, decode) ==> r.quota == 0
    ensures !StopHit(a, token, decode) ==> r.quota == a.quota - 1
    ensures (token == 0 || StopHit(a, token, decode)) <==> r.context == a.context
    ensures !(token == 0 || StopHit(a, token, decode)) ==> r.context == a.context + [token] && r.lastToken == token
    ensures (token == 0 || StopHit(a, token, decode)) ==> r.lastToken == a.lastToken
    ensures r.busy <==> a.busy && r.quota > 0
    ensures r.queue == a.queue && r.stopSequences == a.stopSequences
    ensures r.temperature == a.temperature && r.tau == a.tau
  {
    var hit := StopHit(a, token, decode);
    var quota: nat := if hit then 0 else a.quota - 1;
    var b := if token == 0 || hit then a.(quota := quota)
             else a.(quota := quota, lastToken := token, context := a.context + [token]);
    assert |b.context| != |a.context| ==> b.context != a.context;
    if quota == 0 then b.(busy := false) else b
  }

  /** Token 0 stops the agent without touching its context, but leaves the
      rest of its quota in place: it is batched again next step. */
  lemma ZeroTokenKeepsQuota(a: Agent, decode: seq<Token> -> string)
    requires a.quota > 1
    ensures var r := DecodeAgent(a, 0, decode);
      r.quota == a.quota - 1 > 0 && r.context == a.context && r.lastToken == a.lastToken
  {
  }

  /** Until the context holds six tokens, only token 0 can stop the agent
      early; any other token is appended. */
  lemma ShortContextNeverStops(a: Agent, token: Token, decode: seq<Token> -> string)
    requires a.quota > 0 && |a.context| <= 5 && token != 0
    ensures var r := DecodeAgent(a, token, decode);
      r.quota == a.quota - 1 && r.context == a.context + [token] && r.lastToken == token
  {
  }

  /** The batch indices are in range, strictly increasing, and name agents
      that still want tokens from slot `k` on. */
  predicate Decodable(agents: seq<Agent>, batch: seq<nat>, k: nat) {
    && (forall j :: 0 <= j < |batch| ==> batch[j] < |agents|)
    && (forall j, l :: 0 <= j < l < |batch| ==> batch[j] < batch[l])
    && (forall j :: k <= j < |batch| ==> agents[batch[j]].quota > 0)
  }

  /** No slot from `from` on holds agent `i`. */
  predicate Untouched(batch: seq<nat>, from: nat, i: nat) {
    forall j :: from <= j < |batch| ==> batch[j] != i
  }

  /** The decode loop from slot `k`: the agent in slot `j` gets the token
      sampled from slot `j`. */
  function DecodeBatch(agents: seq<Agent>, batch: seq<nat>, k: nat,
                       decode: seq<Token> -> string, sample: (nat, Agent) -> Token): (r: seq<Agent>)
    requires Decodable(agents, batch, k)
    ensures |r| == |agents|
    ensures forall i :: 0 <= i < |agents| && Untouched(batch, k, i) ==> r[i] == agents[i]
    ensures forall j :: k <= j < |batch| ==>
      r[batch[j]] == DecodeAgent(agents[batch[j]], sample(j, agents[batch[j]]), decode)
    decreases |batch| - k
  {
    if k >= |batch| then
      agents
    else
      var i := batch[k];
      var next := agents[i := DecodeAgent(agents[i], sample(k, agents[i]), decode)];
      assert forall j :: k < j < |batch| ==> batch[j] != i && next[batch[j]] == agents[batch[j]];
      DecodeBatch(next, batch, k + 1, decode, sample)
  }

  // ---------------------------------------------------------------- listen

  /** `listen`: one scheduling step over the whole pool. */
  function Listen(p: Pool, encode: string -> seq<Token>, decode: seq<Token> -> string,
                  sample: (nat, Agent) -> Token): (r: Step)
    requires Prefillable(p, encode)
    ensures |r.pool.agents| == |p.agents| && r.pool.maxAgents == p.maxAgents
    ensures Valid(p) ==> Valid(r.pool)
    ensures forall i :: 0 <= i < |r.pool.agents| ==> r.pool.agents[i].queue == ""
  {
    if |p.agents| == 0 then
      Step(p, [])
    else
      var admitted := AdmitAll(p, encode);
      var batch := Batch(admitted.0);
      if |batch| == 0 then
        Step(p.(agents := admitted.0), admitted.1)
      else
        var decoded := DecodeBatch(admitted.0, batch, 0, decode, sample);
        assert forall i :: 0 <= i < |decoded| ==> decoded[i].queue == "" by {
          forall i | 0 <= i < |decoded| ensures decoded[i].queue == "" {
            if i in batch {
              var j :| 0 <= j < |batch| && batch[j] == i;
            }
          }
        }
        Step(p.(agents := decoded), admitted.1 + [DecodeCall(admitted.0, batch)])
  }

  /** Where agent `i` ends up after a step. An agent with tokens to generate
      is decoded from its admitted (prefilled) self; the rest keep that self. */
  lemma ListenAgent(p: Pool, encode: string -> seq<Token>, decode: seq<Token> -> string,
                    sample: (nat, Agent) -> Token, i: nat)
    requires Prefillable(p, encode) && i < |p.agents|
    ensures var a := Admit(p.agents[i], encode, p.maxAgents).0;
            var r := Listen(p, encode, decode, sample).pool.agents[i];
            && (p.agents[i].quota == 0 ==> r == a)
            && (p.agents[i].quota > 0 ==> exists t :: r == DecodeAgent(a, t, decode))
  {
    var admitted := AdmitAll(p, encode);
    var batch := Batch(admitted.0);
    var a := admitted.0[i];
    if p.agents[i].quota > 0 {
      assert i in batch;
      var j :| 0 <= j < |batch| && batch[j] == i;
      assert Listen(p, encode, decode, sample).pool.agents[i] == DecodeAgent(a, sample(j, a), decode);
    } else {
      assert Untouched(batch, 0, i);
    }
  }

  /** A step never raises a quota, and lowers every positive one. */
  lemma ListenLowersQuota(p: Pool, encode: string -> seq<Token>, decode: seq<Token> -> string,
                          sample: (nat, Agent) -> Token)
    requires Prefillable(p, encode)
    ensures var r := Listen(p, encode, decode, sample).pool.agents;
      forall i :: 0 <= i < |p.agents| ==>
        && r[i].quota <= p.agents[i].quota
        && (p.agents[i].quota > 0 ==> r[i].quota < p.agents[i].quota)
  {
    forall i | 0 <= i < |p.agents| {
      ListenAgent(p, encode, decode, sample, i);
    }
  }

  /** After a step an agent that still wants tokens is busy, and an agent
      that was not stuck is not stuck. */
  lemma ListenKeepsFlags(p: Pool, encode: string -> seq<Token>, decode: seq<Token> -> string,
                         sample: (nat, Agent) -> Token)
    requires Prefillable(p, encode)
    ensures var r := Listen(p, encode, decode, sample).pool.agents;
      forall i :: 0 <= i < |p.agents| ==>
        && (r[i].quota > 0 ==> r[i].busy)
        && (!Stuck(p.agents[i]) ==> !Stuck(r[i]))
  {
    forall i | 0 <= i < |p.agents| {
      ListenAgent(p, encode, decode, sample, i);
    }
  }

  /** A stuck agent is left exactly as it was. */
  lemma StuckStaysStuck(p: Pool, encode: string -> seq<Token>, decode: seq<Token> -> string,
                        sample: (nat, Agent) -> Token, i: nat)
    requires Prefillable(p, encode) && i < |p.agents| && Stuck(p.agents[i])
    ensures Listen(p, encode, decode, sample).pool.agents[i] == p.agents[i]
  {
    ListenAgent(p, encode, decode, sample, i);
  }

  /** The decode call holds one single-token sequence per agent that wants
      tokens, in pool order; without such an agent there is no decode call. */
  lemma ListenDecodeCall(p: Pool, encode: string -> seq<Token>, decode: seq<Token> -> string,
                         sample: (nat, Agent) -> Token)
    requires Prefillable(p, encode)
    ensures var r := Listen(p, encode, decode, sample);
            var admitted := AdmitAll(p, encode);
            var batch := Batch(p.agents);
            && (|batch| == 0 ==> r.calls == admitted.1)
            && (|batch| > 0 ==> r.calls == admitted.1 + [DecodeCall(admitted.0, batch)])
  {
    var admitted := AdmitAll(p, encode);
    assert Quotas(p.agents) == Quotas(admitted.0);
  }

  /** With no queued text and no tokens wanted, a step does nothing. */
  lemma IdlePoolIsFixed(p: Pool, encode: string -> seq<Token>, decode: seq<Token> -> string,
                        sample: (nat, Agent) -> Token)
    requires forall i :: 0 <= i < |p.agents| ==> p.agents[i].queue == "" && p.agents[i].quota == 0
    ensures Listen(p, encode, decode, sample) == Step(p, [])
  {
    if |p.agents| > 0 {
      var admitted := AdmitAll(p, encode);
      assert admitted.0 == p.agents;
      var admits := seq(|p.agents|, i requires 0 <= i < |p.agents| => Admit(p.agents[i], encode, p.maxAgents));
      var parts := seq(|admits|, i requires 0 <= i < |admits| => admits[i].1);
      assert forall i :: 0 <= i < |parts| ==> parts[i] == [];
      FlattenEmpty(parts);
      assert admitted.1 == Flatten(parts) == [];
    }
  }

  // ---------------------------------------------------------------- repeated steps

  /** `k` consecutive steps. */
  function Run(p: Pool, k: nat, encode: string -> seq<Token>, decode: seq<Token> -> string,
               sample: (nat, Agent) -> Token): (r: Pool)
    requires Prefillable(p, encode)
    ensures |r.agents| == |p.agents| && r.maxAgents == p.maxAgents
    ensures k > 0 ==> forall i :: 0 <= i < |r.agents| ==> r.agents[i].queue == ""
    decreases k
  {
    if k == 0 then p
    else Run(Listen(p, encode, decode, sample).pool, k - 1, encode, decode, sample)
  }

  /** One step brings every quota at most `k` down to at most `k - 1`
      and creates no stuck agent. */
  lemma ListenStep(p: Pool, k: nat, encode: string -> seq<Token>,
                   decode: seq<Token> -> string, sample: (nat, Agent) -> Token)
    requires Prefillable(p, encode) && k >= 1
    requires forall i :: 0 <= i < |p.agents| ==> p.agents[i].quota <= k && !Stuck(p.agents[i])
    ensures var q := Listen(p, encode, decode, sample).pool;
      forall i :: 0 <= i < |q.agents| ==> q.agents[i].quota <= k - 1 && !Stuck(q.agents[i])
  {
    ListenLowersQuota(p, encode, decode, sample);
    ListenKeepsFlags(p, encode, decode, sample);
  }

  /** Once every agent's quota is at most `k`, `k` steps (at least one)
      finish all work: nothing queued, nothing wanted, and, as long as no
      agent started out stuck, nobody busy. */
  lemma {:induction false} Drain(p: Pool, k: nat, encode: string -> seq<Token>,
                                 decode: seq<Token> -> string, sample: (nat, Agent) -> Token)
    requires Prefillable(p, encode) && k >= 1
    requires forall i :: 0 <= i < |p.agents| ==> p.agents[i].quota <= k && !Stuck(p.agents[i])
    ensures var r := Run(p, k, encode, decode, sample);
      forall i :: 0 <= i < |r.agents| ==> r.agents[i].quota == 0 && r.agents[i].queue == "" && !r.agents[i].busy
    decreases k
  {
    var q := Listen(p, encode, decode, sample).pool;
    ListenStep(p, k, encode, decode, sample);
    assert Run(p, k, encode, decode, sample) == Run(q, k - 1, encode, decode, sample);
    if k > 1 {
      Drain(q, k - 1, encode, decode, sample);
    }
  }
}
