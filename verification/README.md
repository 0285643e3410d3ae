# godot-rwkv core, modelled in Dafny

This project models two sequential parts of godot-rwkv, a Godot extension that runs RWKV language models.

1. **The tensor engine's host logic** (`rwkv.hpp/include/hvml/tensor.hpp`). This covers:
   - shapes and element counts;
   - the four constructors;
   - `fill`, `clone`, `reshape`/`unsafereshape` and leading-index views (`operator[]`);
   - `gather`, the dense `matmul` reduction, `lerp`, `relu` and `relusquare`;
   - the device-tag checks of the dispatching `add`, quantized `matmul` and `layernorm`;
   - the `TENSORTYPE` name table and `get_type`.
2. **The continuous-batching scheduler** (`godot-rwkv.h`). This covers:
   - the `Agent` request handlers: `add_context`, `generate`, the setters and `get_context`;
   - `GodotRWKV::createAgent`;
   - one `GodotRWKV::listen` step: prefill chunking, choosing the decode batch, the per-agent quota, the stop checks, and the context, last-token and busy bookkeeping.

Everything is modelled as immutable datatypes and pure functions.

**How tensors are represented.**
- A tensor is a shape, a flat buffer, the stored element count, byte size and original allocation size, a `uint16_t` device tag (0 = host, 1 = accelerator) and the C++ element type.
- The stored sizes are kept as separate fields because the source can let them disagree with the shape:
  - the default constructor stores count 0 for the empty shape;
  - `gather` overwrites the *source* tensor's count through the side effect of `get_data_size_in_elements`.
- A tensor's `data` is the buffer from its data pointer to the end of the allocation. A view therefore starts as a copy of the tail of its parent's buffer.
- A view is built by the wrapping constructor, so its device tag is the host's whatever the parent's was.
- Because `bfloat16` is `#define`d as `short`, `get_type` never yields `kBFLOAT_16` or `kFLOAT_16`.
- An unknown name or tag serialises to the first table entry (`kBOOL` / `"BOOL"`).

**How failures are represented.** A failed `assert` or a thrown `std::runtime_error` becomes a `Failure` carrying the reason.

**Arithmetic.** Element arithmetic uses `real`, an idealised stand-in for `float`.

**How the scheduler is represented.**
- An agent is a record, and the pool is a sequence of agents with the batch size `max_agents`.
- The tokenizer (`encode`, `decode`), the sampler and the forward pass are parameters:
  - `sample(slot, agent)` is the token the sampler draws for batch slot `slot`;
  - a step reports the token batches it feeds the model, in order, instead of running it.

**Source quirks reproduced as written:**
- A rejected `add_context` returns `(size_t)-1`.
- `add_context("")` leaves an agent busy with nothing to do.
- Token 0 stops an agent for that step without zeroing its quota.
- A prefill chunk is the carried last token plus up to `max_agents` new tokens.
- The final encoded token becomes the last token only when the encoding has at least two tokens.
- Every chunk of one prefill starts with the last token the agent had on entry.
- An empty stop sequence matches every text, as `std::string::find` finds `""` at position 0.

Files:
- `outcomes.dfy`: `Result`/`Option`.
- `seqs.dfy`: row-major flattening.
- `shapes.dfy`: shape products.
- `tensor_types.dfy`: the type tags.
- `tensors.dfy`: the tensor record, constructors, reshape, views and clone.
- `tensor_ops.dfy`: gather, matmul, lerp, activations and the device guards.
- `text.dfy`: substring search.
- `agents.dfy`: agent requests.
- `scheduler.dfy`: pool, prefill, decode, `listen` and repeated steps.

## Model

| member | source | states |
|---|---|---|
| Shapes.ElementCount | rwkv.hpp/include/hvml/tensor.hpp:118-127 | the size helper's result is the product of the dimensions: 1 for an empty shape, and 0 exactly when some dimension is 0 |
| Shapes.ProductZero | rwkv.hpp/include/hvml/tensor.hpp:118-127 | a shape holds no elements exactly when one of its dimensions is 0 |
| Shapes.RowsTimesLast | rwkv.hpp/include/hvml/tensor.hpp:578-590 | the row count `BBT` (all dimensions but the last) times the last dimension is the element count |
| TensorTypes.IndexOf | rwkv.hpp/include/hvml/tensor.hpp:72-86 | the table lookup returns the first matching entry, or "none" when no entry matches |
| TensorTypes.NamesDistinct | rwkv.hpp/include/hvml/tensor.hpp:72-86 | no two tags share a name |
| TensorTypes.EveryTagListed | rwkv.hpp/include/hvml/tensor.hpp:23-52 | every `TENSORTYPE` value has an entry in the name table |
| TensorTypes.ParseName | rwkv.hpp/include/hvml/tensor.hpp:72-86 | serialising a tag and reading it back gives the same tag |
| TensorTypes.NameParse | rwkv.hpp/include/hvml/tensor.hpp:72-86 | reading a string and serialising the tag gives the same string exactly when the string is one of the thirteen names |
| TensorTypes.ParseUnknown | rwkv.hpp/include/hvml/tensor.hpp:72-86 | a name outside the table reads as `kBOOL` |
| TensorTypes.GetType | rwkv.hpp/include/hvml/tensor.hpp:151-205 | every scalar type other than the eleven supported ones throws; a supported type's tag has the type's byte width; neither `kBFLOAT_16` nor `kFLOAT_16` is ever returned |
| TensorTypes.GetTypeInjective | rwkv.hpp/include/hvml/tensor.hpp:151-205 | distinct supported scalar types get distinct tags |
| Tensors.Empty | rwkv.hpp/include/hvml/tensor.hpp:110-116 | the default tensor has no shape, no buffer and zero sizes, so its stored count disagrees with its (empty) shape |
| Tensors.Wrap | rwkv.hpp/include/hvml/tensor.hpp:370-381 | wrapping a buffer records the shape's element and byte counts as both current and original size, with the host device tag; the result is consistent exactly when the buffer holds the shape's elements |
| Tensors.Allocate | rwkv.hpp/include/hvml/tensor.hpp:327-343 | a shape-constructed tensor is consistent: its count is the shape's product, its byte size is count × element size and equals the original allocation, and its buffer is exactly that long |
| Tensors.Fill | rwkv.hpp/include/hvml/tensor.hpp:134-147 | on the host, the first `count` elements become the value; the rest of the buffer and all metadata stay |
| Tensors.FillTwice | rwkv.hpp/include/hvml/tensor.hpp:134-147 | a second fill completely overrides the first |
| Tensors.Filled | rwkv.hpp/include/hvml/tensor.hpp:345-368 | the value constructor fails its positive-size assertion exactly when some dimension is 0; otherwise every element equals the value and the tensor is consistent |
| Tensors.Reshape | rwkv.hpp/include/hvml/tensor.hpp:454-467 | succeeds exactly when the new shape has the stored element count; it then changes the shape only and keeps the tensor consistent |
| Tensors.UnsafeReshape | rwkv.hpp/include/hvml/tensor.hpp:469-481 | takes any shape and its product as the count; the result is consistent exactly when the buffer is long enough |
| Tensors.ReshapeRoundTrip | rwkv.hpp/include/hvml/tensor.hpp:454-467 | reshaping a consistent tensor to a same-sized shape and back restores it exactly |
| Tensors.ReshapeIsCheckedUnsafe | rwkv.hpp/include/hvml/tensor.hpp:454-481 | the checked reshape is the unchecked one guarded by its assertion |
| Tensors.At | rwkv.hpp/include/hvml/tensor.hpp:1038-1049 | view `index` has the trailing dimensions as its shape and their product as its count; its element `j` is the parent's element `index × stride + j`; its device tag is the host's |
| Tensors.AtInBounds | rwkv.hpp/include/hvml/tensor.hpp:1038-1049 | for every index below the first dimension of a consistent tensor, the view lies inside the parent's elements and is itself consistent |
| Tensors.Clone | rwkv.hpp/include/hvml/tensor.hpp:207-226 | the destination takes the source's shape and sizes and its first `count` elements; it keeps the rest of its buffer, its device tag and its allocation record, even when the byte sizes differ |
| Tensors.CloneValid | rwkv.hpp/include/hvml/tensor.hpp:207-226 | cloning a consistent tensor into a large enough buffer of the same type gives a consistent copy agreeing on every owned element |
| TensorOps.GatherBlockAt | rwkv.hpp/include/hvml/tensor.hpp:751-757 | within one batch entry, gathered element `[j][k]` is element `k` of source row `indices[j]` |
| TensorOps.GatherAt | rwkv.hpp/include/hvml/tensor.hpp:748-760 | gathered element `[i][j][k]`, at `i·T·OUT + j·OUT + k`, is element `k` of source row `indices[i][j]` |
| TensorOps.GatherBuffer | rwkv.hpp/include/hvml/tensor.hpp:747-760 | the host copy writes exactly the first `batch·T·OUT` elements, each from its indexed source row, and keeps the rest of the buffer |
| TensorOps.Gather | rwkv.hpp/include/hvml/tensor.hpp:716-765 | the buffer is shaped `[batch, T, OUT]` with matching count and bytes; on the host it holds the gathered rows, and on any other device its data is untouched; the source tensor's stored count is overwritten with the buffer's |
| TensorOps.SplitRowsAt | rwkv.hpp/include/hvml/tensor.hpp:626-643 | row `i`, column `c` of a row-major buffer is its element `i·width + c` |
| TensorOps.MatMulBuffer | rwkv.hpp/include/hvml/tensor.hpp:626-643 | output `o` of row `b` lands at `b·OUT + o` and is the dot product of weight row `o` with input row `b`; elements past `BBT·OUT` are kept |
| TensorOps.MatMul | rwkv.hpp/include/hvml/tensor.hpp:565-646 | the dense product fails exactly when the result does not hold `BBT·OUT` elements; otherwise only the result's data changes, to the product |
| TensorOps.DotOneHot | rwkv.hpp/include/hvml/tensor.hpp:632-642 | accumulating against a one-hot weight row picks out a single input element |
| TensorOps.MatMulIdentity | rwkv.hpp/include/hvml/tensor.hpp:565-646 | with identity weights the product copies each input row to the output row |
| TensorOps.Lerp | rwkv.hpp/include/hvml/tensor.hpp:846-866 | the result takes the second tensor's shape, and element `i` is `B[i]·W[i mod IN] + A[i]·(1 − W[i mod IN])`; elements past the count are kept |
| TensorOps.LerpZero | rwkv.hpp/include/hvml/tensor.hpp:846-866 | an all-zero weight reproduces the first tensor |
| TensorOps.LerpOne | rwkv.hpp/include/hvml/tensor.hpp:846-866 | an all-one weight reproduces the second tensor |
| TensorOps.Square | rwkv.hpp/include/hvml/tensor.hpp:927-928 | a square is never negative and is zero only at zero |
| TensorOps.Relu | rwkv.hpp/include/hvml/tensor.hpp:885-911 | the result takes the input's shape; each element is non-negative and equals the input exactly when the input is non-negative, and is 0 otherwise |
| TensorOps.ReluSquare | rwkv.hpp/include/hvml/tensor.hpp:913-942 | each element is non-negative and is zero exactly when the input is not positive |
| TensorOps.ReluSquareIsSquaredRelu | rwkv.hpp/include/hvml/tensor.hpp:913-942 | squared ReLU is ReLU times itself, element by element |
| TensorOps.ReluIdempotent | rwkv.hpp/include/hvml/tensor.hpp:885-911 | applying ReLU to its own output changes nothing it computed |
| TensorOps.Add | rwkv.hpp/include/hvml/tensor.hpp:400-413 | the dynamic add fails exactly when the three device tags differ; tag 0 runs the host kernel, tag 1 the accelerator kernel, and any other tag leaves the result untouched |
| TensorOps.QuantMatMul | rwkv.hpp/include/hvml/tensor.hpp:660-674 | the quantized dispatcher fails exactly when the five device tags differ, and then routes like `add` |
| TensorOps.LayerNorm | rwkv.hpp/include/hvml/tensor.hpp:767-844 | layer norm fails exactly when the result's count differs, when the four tags do not sum to a multiple of 4, or, off the host, when the last dimension is not a multiple of 32; otherwise a host input runs the host kernel |
| TensorOps.LayerNormDevicesAgree | rwkv.hpp/include/hvml/tensor.hpp:795-797 | with the two defined tags, the sum check passes exactly when all four tags are equal |
| TensorOps.LayerNormMixedTagsPass | rwkv.hpp/include/hvml/tensor.hpp:795-797 | some four tags that are not all equal pass the sum check, so beyond tags 0 and 1 it does not enforce agreement |
| Text.Find | godot-rwkv.h:229 | the search returns the first position where the pattern occurs, or nothing exactly when it occurs nowhere |
| Text.MatchesStop | godot-rwkv.h:226-233 | the stop check fires exactly when some stop sequence occurs somewhere in the text |
| Text.EmptyStopMatches | godot-rwkv.h:226-233 | an empty stop sequence matches every text |
| Agents.NewAgent | godot-rwkv.h:27-41 | a new agent is idle, with empty context and stop list and last token 187 |
| Agents.AddContext | godot-rwkv.h:46-59 | accepted (returns 0) exactly when the agent is idle; it then queues the text, clears the context, sets busy and keeps the other settings; a rejected call returns `(size_t)-1` and changes nothing |
| Agents.GetContext | godot-rwkv.h:88-93 | an empty context gives `""` without the tokenizer; any other context gives its decoding |
| Agents.AddContextTwice | godot-rwkv.h:46-59 | a second `add_context` before the first is processed is rejected |
| Agents.AddEmptyContextSticks | godot-rwkv.h:46-59 | `add_context("")` leaves the agent busy with nothing queued and nothing to generate |
| Agents.StopSequencesAccumulate | godot-rwkv.h:77-81 | stop sequences from successive calls are appended in order, never replaced |
| Agents.SettersAreIndependent | godot-rwkv.h:65-85 | `generate`, `set_temperature`, `set_tau`, `set_last_token` and `set_stop_sequences` each change their own field and leave every other field as it was |
| Agents.SettersCommute | godot-rwkv.h:65-85 | any two of those requests that touch different fields give the same agent in either order |
| Agents.AddContextClearsContext | godot-rwkv.h:46-59 | after an accepted `add_context`, `get_context` reads `""` whatever the tokenizer |
| Agents.RejectedAddContextKeepsContext | godot-rwkv.h:46-59 | after a rejected `add_context`, `get_context` reads what it read before |
| Scheduler.CreateAgent | godot-rwkv.h:252-262 | an agent is appended, and its index returned, exactly when the pool is below `max_agents`; otherwise the pool is unchanged; `|agents| ≤ max_agents` is preserved |
| Scheduler.PrefillLoop | godot-rwkv.h:165-176 | every chunk starts with the entry last token and holds at least one and at most `max_agents` more tokens, so no chunk is the carried token alone; all but the last are full; the chunks' tails concatenate to every token but the final one; the final token becomes the last token exactly when there are at least two tokens |
| Scheduler.Admit | godot-rwkv.h:155-192 | after the prefill pass an agent has an empty queue; it is busy exactly when it wants tokens or was busy with nothing queued; its prefill calls are single-sequence batches of at least two tokens starting with its old last token |
| Scheduler.AdmitAll | godot-rwkv.h:154-193 | the prefill pass treats each agent independently and keeps the pool's order |
| Scheduler.BatchFrom | godot-rwkv.h:189-193 | the slots scanned from a position on are exactly the positions with a positive quota, in increasing order |
| Scheduler.Batch | godot-rwkv.h:189-193 | the decode batch is exactly the agents with a positive quota, in pool order |
| Scheduler.DecodeCall | godot-rwkv.h:195-200 | the decode call has one single-token sequence per batched agent: that agent's last token |
| Scheduler.DecodeAgent | godot-rwkv.h:212-244 | the quota always drops, to 0 on a stop-sequence hit and by one otherwise; token 0 or a hit leaves context and last token alone; otherwise the token is appended and becomes the last token; busy is cleared exactly when the quota reaches 0 |
| Scheduler.ZeroTokenKeepsQuota | godot-rwkv.h:216-220 | token 0 stops the agent for this step, but its remaining quota stays positive |
| Scheduler.ShortContextNeverStops | godot-rwkv.h:221-240 | while the context holds five tokens or fewer, a nonzero token is always appended |
| Scheduler.DecodeBatch | godot-rwkv.h:212-247 | the agent in slot `j` is decoded with the token sampled for slot `j`; agents outside the batch are untouched |
| Scheduler.Listen | godot-rwkv.h:148-250 | a step keeps the pool's size and batch size, and so its bound; it empties every queue |
| Scheduler.ListenAgent | godot-rwkv.h:189-247 | after a step, an agent with no quota is exactly its prefilled self, and one with quota is its prefilled self decoded with some token |
| Scheduler.ListenLowersQuota | godot-rwkv.h:212-232 | a step never raises a quota and lowers every positive one |
| Scheduler.ListenKeepsFlags | godot-rwkv.h:179-244 | after a step, an agent with quota left is busy, and no agent becomes stuck |
| Scheduler.StuckStaysStuck | godot-rwkv.h:152-204 | an agent that is busy with nothing queued and no quota is left exactly as it is |
| Scheduler.ListenDecodeCall | godot-rwkv.h:195-208 | without an agent wanting tokens a step makes only prefill calls; otherwise it adds one decode call over the agents with quota, in pool order, each carrying its last token after the prefill pass |
| Scheduler.IdlePoolIsFixed | godot-rwkv.h:152-204 | with nothing queued and nothing wanted, a step changes nothing and makes no call |
| Scheduler.Run | godot-rwkv.h:148-250 | repeated steps keep the pool's size and leave every queue empty |
| Scheduler.ListenStep | godot-rwkv.h:148-250 | one step brings every quota of at most `k` down to at most `k − 1` and creates no stuck agent |
| Scheduler.Drain | godot-rwkv.h:148-250 | if every quota is at most `k ≥ 1` and no agent is stuck, `k` steps finish all work: every quota is 0, every queue is empty and no agent is busy |

## Left out

- Accelerator paths (`sendToVulkan`, every `vuda::launchKernel` branch, the Vulkan `matmul`s): device I/O whose kernels are not part of this model. `Add`, `QuantMatMul` and `LayerNorm` take both kernels as parameters; `gather` off the host copies nothing.
- Tensors.Fill: requires the host device tag; the accelerator branch launches a shader kernel that is not part of this model.
- TensorOps.Lerp: requires the host device tag; the accelerator branch launches a shader kernel that is not part of this model.
- TensorOps.Relu: requires the host device tag; the accelerator branch launches a shader kernel that is not part of this model.
- TensorOps.ReluSquare: requires the host device tag; the accelerator branch launches a shader kernel that is not part of this model.
- Floating-point numerics: `float` is idealised as `real`. Rounding is not modelled, nor are the `layernorm` mean, variance and `sqrt`, `softmax`, `sigmoid`, the bf16 and 8-bit `matmul` bodies, or the `exp`-based kernels.
- SIMD: the `LOAD`/`STORE`/`REDUCE` loops are modelled element by element, which assumes that each loop bound is a multiple of its step (`SIMD_WIDTH`, or 32 in `matmul`): the element count in `clone` (tensor.hpp:222-225), `lerp`, `relu` and `relusquare`, `IN` in the `matmul` k-loop and in `lerp`'s `i % IN` weight load, and `OUT` in `gather`. Otherwise the source reads and writes on up to the next multiple. The "rest of the buffer is kept" clauses of Tensors.Clone, TensorOps.Lerp, TensorOps.Relu, TensorOps.ReluSquare, TensorOps.GatherBuffer and TensorOps.MatMulBuffer hold only under that assumption.
- Tensors.At: a view is a value copy of its parent's buffer tail, so a later write into the view (`fill`, `clone`, or a view as the result of `lerp` or `relu`) does not reach the parent as it does through the shared pointer in the source. Write-through aliasing is not modelled.
- Shapes.ElementCount: does not model 64-bit wrap-around of the size product; dimensions are unbounded naturals.
- Tensors.Filled: the "Tensor size is too large" message for dimensions above 5960578998 is only printed by the source and is not modelled.
- Memory management: `aligned_alloc`, raw pointer ownership, the copy constructor and printing. An allocation's unspecified contents are a parameter of `Allocate`.
- Tensors.At: requires the view's start to lie inside the buffer; the source does not check it and reads past the allocation otherwise.
- Tensors.Fill: requires the count to fit in the buffer; the source does not check it.
- Tensors.Clone: requires the source's count to fit in both buffers; the source does not check it.
- TensorOps.Lerp: requires the weight's first dimension to be positive and to fit in its buffer, and the result's count to fit in all three buffers; the source does not check these.
- TensorOps.Relu: requires the count to fit in both buffers; the source does not check it.
- TensorOps.ReluSquare: requires the count to fit in both buffers; the source does not check it.
- TensorOps.Gather: requires at least one index list, a source of rank at least 2, every index list at least as long as the first, every indexed row to lie inside the source and the buffer to be large enough. The source reads `indices[0]` and `shape[1]` and does not check any of these.
- TensorOps.MatMul: requires input and result of rank at least 3, and the buffers to be large enough whenever the size assertion passes. The source reads `shape[2]` and does not check any of these.
- The model's recurrent state (`new_state`, `set_state`, `get_state`) and the forward pass: a step reports the batches it feeds the model instead of running it.
- The tokenizer and the `typical` sampler are parameters (`encode`, `decode`, `sample`); the sampled token is a function of the batch slot and the agent.
- Scheduler.Listen: requires every queued text to encode to at least one token, and `max_agents > 0` when it encodes to two or more. For an empty encoding the source's `tokens.size()-1` wraps around and reads out of bounds; with a zero batch size its prefill loop never ends.
- Scheduler.Drain: assumes no agent starts stuck. An agent left busy by `add_context("")` stays busy until `generate` gives it a quota.
- Godot glue: `_bind_methods`, `String`/`Variant`/`Array` conversion, `ERR_PRINT` and `std::cout` logging. A string is a sequence of characters; UTF-8 conversion is the identity.
- `loadModel` and `loadTokenizer`: file loading. The pool's batch size is a field of the pool.
- The getters `is_busy`, `get_last_token` and `get_max_queued_tokens`: field reads.
- The unused `GodotRWKV::lastToken` field.
