# MapserverError: MapServer's error queue as host exceptions

node-mapserv exposes MapServer to Node.js. When a MapServer call fails,
MapServer leaves a singly linked queue of `errorObj` records, most recent
first. The `MapserverError` class copies that queue by value into its own
linked chain, then turns it into one JavaScript `Error`. The head becomes the
primary error. Every earlier error, in queue order, becomes one entry of an
`errorStack` array attached to it.

This project models that class in Dafny:

- `foreign.dfy` (`Foreign`): MapServer's queue as a datatype list, with its
  length and the node reached after `k` steps along `next` (the traversal
  helpers `Foreign.Drop`, `Foreign.At` and `Foreign.DropNext`).
- `chain.dfy` (`Chain`): the captured object, which holds the records head
  first plus the `length` counter. It also has the capture loop, the string
  constructor, the bare constructor, and the destructor's loop over the
  linked `next` pointers.
- `registry.dfy` (`Registry`): the property-name symbols that `Init` creates.
- `convert.dfy` (`Convert`): `ToV8Error` for one record and `toV8Error` for
  the whole chain. The file also covers the empty-queue defects, both as
  written and corrected.
- `jsobject.dfy` (`JsObject`): the host objects as property maps keyed by the
  registry's symbols. It proves the fields read back unchanged
  (`JsObject.ReadErrorIgnoresStack` is a proof helper for that).

MapServer's category lookup `msGetErrorCodeString` is foreign code. Every
conversion therefore takes it as a parameter `category: int -> string`.
`MS_NOERR` is 0 and `MS_MISCERR` is 12, MapServer's values. maperror.h is
not part of this model.

**How the empty queue is handled.** The two empty-queue defects are fixed by
explicit branches, not by preconditions:

- `Chain.Capture` of a null head gives an empty chain with `length` 0.
- `Convert.Export` of an empty chain returns a sentinel error: the conversion
  of an unreported `MS_NOERR` record with empty routine and message, so its
  `message` is the category text of `MS_NOERR`, and its `errorStack` is empty.

The code as written is modelled beside the fix (`Chain.CaptureAsWritten`,
`Convert.ExportAsWritten`). Lemmas show where the two agree and where they
differ.

The code never checks whether `Init` has run, and it has no fallback text
for an unknown code: the category text is whatever MapServer's lookup
returns. The model keeps both behaviours.

## Model

| member | source | states |
|---|---|---|
| Chain.Capture | src/error.cpp:77-93 | The captured `length` equals the number of queue nodes, and is 0 for a null head. The chain holds exactly `length` records. Record i has the code, routine, message and reported flag of queue node i. |
| Chain.CaptureLoop | src/error.cpp:79-91 | The constructor's loop copies each node as it walks `next` and counts the nodes. It ends with `length` equal to the queue length and with record i copied from node i. |
| Chain.CaptureAsWritten | src/error.cpp:77-93 | The constructor as written. For a non-null head it gives the same object as `Capture`. For a null head it gives one record with the uninitialised code and reported flag of `this`, but `length` 0. |
| Chain.FromMessage | src/error.hpp:70-78 | The string constructor gives a single-record chain with `length` 1. The record has the given message, routine and code, and is not reported. |
| Chain.Bare | src/error.hpp:109-114 | The bare constructor gives a single unreported record with an empty routine and message, and `length` 1. |
| Chain.LinkOf | src/error.cpp:85-92 | Wiring the records into `next` links keeps every record in order, and the last link is null. |
| Chain.Destroy | src/error.hpp:81-88 | The destructor's loop ends with `next` null. It deletes exactly one node per tail record, in chain order, and clears each node's `next` before deleting it. |
| Chain.ReleasedDetached | src/error.hpp:84-86 | Because each node's `next` is cleared before `delete`, the nodes' own destructors release each tail record exactly once, in order. |
| Convert.ToV8Error | src/error.cpp:127-140 | `name` is "MapserverError" and `category` is the lookup of the code. `message` is the record's message when it is non-empty, and otherwise the category. `code`, `routine` and `isReported` are copied verbatim. |
| Convert.RecoverToV8Error | src/error.cpp:130-137 | The record can be recovered from its conversion exactly when the record's message is empty or differs from its category text. This holds in both directions. |
| Convert.StackOf | src/error.cpp:104-111 | Walking `next` gives one converted error per linked record, in link order. |
| Convert.Sentinel | src/error.cpp:100-118 | The fix for an empty chain: the exported error has the tag "MapserverError", code `MS_NOERR`, an empty routine, `isReported` false, the category text of `MS_NOERR` as both category and message, and an empty stack. |
| Convert.Export | src/error.cpp:100-118 | `toV8Error` with the underflow fixed. An empty chain gives the sentinel. Otherwise the primary error is the conversion of the head. The stack has `max(length-1, 0)` entries, and entry i is the conversion of record i+1. |
| Convert.ChainToV8Error | src/error.cpp:100-118 | The loop of `toV8Error`, which fills the stack slot by slot while walking `next`, computes exactly `Export`. |
| Convert.UnsignedPred | src/error.cpp:106 | `length-1` on `unsigned int` is `length-1` for a positive length below 2^32, and wraps to 4294967295 at 0. |
| Convert.ExportAsWritten | src/error.cpp:100-118 | `toV8Error` as written requests a stack of size `length-1` in unsigned arithmetic. It converts the head, and stack entry i is the conversion of record i+1, one entry per later record. |
| Convert.AsWrittenAgrees | src/error.cpp:106 | On a valid chain with `length` at least 1, the as-written export equals the corrected one, and the requested size equals the number of stack entries. |
| Convert.EmptyQueueAsWritten | src/error.cpp:79-106 | For the object captured from a null head, `length` disagrees with the records held. Its export has the uninitialised record (unset code and reported flag, empty routine) as the primary error and requests 4294967295 stack slots while filling none. |
| Convert.EmptyQueueCorrected | src/error.cpp:79-92 | With the fix, a null head captures no record, `length` is 0, and the export is the sentinel with an empty stack. |
| Convert.CaptureThenExport | src/error.cpp:77-118 | End to end, for a non-empty queue: the primary error is the conversion of the head node. The stack has one entry fewer than the queue. Stack entry i is the conversion of queue node i+1. |
| Convert.SingleErrorExport | src/error.hpp:70-78 | An error built from a message exports as itself, unreported, with an empty stack. The code defaults to `MS_MISCERR` when omitted. |
| Convert.TwoErrorScenario | src/error.cpp:100-140 | For a two-node queue whose older node has no message, the older node's message becomes its category text. |
| Registry.Init | src/error.cpp:59-69 | `Init` creates the tag "MapserverError" and the property names "name", "code", "category", "routine", "isReported" and "errorStack". These names and "message" are pairwise distinct. |
| JsObject.ReadErrorProps | src/error.cpp:131-137 | Under distinct names, every property `ToV8Error` writes reads back unchanged. No write overwrites another. |
| JsObject.ReadStackValues | src/error.cpp:107-111 | Every entry written into the `errorStack` array reads back, in order. |
| JsObject.ReadExportedProps | src/error.cpp:114-115 | Attaching `errorStack` to the primary error leaves the primary's properties intact. The whole chain reads back. |
| JsObject.ExportObjectReadsBack | src/error.cpp:100-140 | The object built with the symbols of `Init` carries exactly the exported chain. |

## Left out

- The V8 object model (`HandleScope`, `Persistent`, `Local`, `scope.Close`) is left out. Host objects are plain maps, and only the properties the class sets are modelled. The other built-in properties of `Exception::Error`, such as `stack`, are not modelled.
- What V8's `Array::New` does with the wrapped size 4294967295 is host behaviour and is not modelled. The model stops at the size requested.
- The internals of `msGetErrorCodeString` are foreign code, so the lookup is a parameter.
- `length` is an unbounded `nat`. Wrap-around of `length++` after 2^32 nodes is not modelled, because MapServer never queues that many errors.
- Allocation failure of `new MapserverError()` is not modelled, because allocation is host behaviour.
- `Init` running once per process is not modelled. It is a pure function, so calling it twice gives the same symbols. Use before `Init` is undefined in the code and is not modelled either.
- `toV8Error` only reads the chain, and converting twice gives equal results. No separate member states this: every conversion is a pure function of its inputs, so this holds by construction.
- The decoding of C byte strings by `String::New` into host strings (as UTF-8, where invalid sequences are lost) is abstracted as the identity: records and host values use the same `string`, so `Convert.RecoverToV8Error` and the `JsObject` read-back lemmas assume messages, routines and category texts survive that decoding. MapServer's texts are expected to be valid UTF-8, and the decoder is host code.
- `c_str()` stops at an embedded NUL character. This is not modelled; MapServer's messages and routines are C strings and contain none.
- src/map.hpp, src/node-mapserv.cpp and tools/config.py are left out. They hold argument checks, thread batons, module start-up and build configuration, none of which is error-chain logic.

## Findings

| source | as written | input that shows it | evidently intended | confidence | as-written member | corrected member |
|---|---|---|---|---|---|---|
| src/error.cpp:79-92 | With a null head the loop never runs. `this` keeps an uninitialised code and reported flag, while `length` stays 0. | `MapserverError(NULL)` | No record is captured, with `length` 0 | high; not executed | Chain.CaptureAsWritten, Convert.EmptyQueueAsWritten | Chain.Capture, Convert.EmptyQueueCorrected |
| src/error.cpp:106 | `Array::New(length-1)` on `unsigned int` asks for 4294967295 slots when `length` is 0. | Exporting the object captured from `NULL` | A stack size of `max(length-1, 0)`, with the empty chain handled by its own branch | high; not executed | Convert.ExportAsWritten, Convert.EmptyQueueAsWritten | Convert.Export, Convert.EmptyQueueCorrected |
