# Captured subrequests of the nginx Lua module

This project models the subrequest fan-out and join of lua-nginx-module
(`ngx.location.capture_multi` and the C code behind it), written in Dafny
and verified.

- **Submitting a batch** (`Join.JoinState.CaptureMulti`). The parent
  request's context gets three result arrays: statuses, pointers to
  response headers, and bodies. Each entry is counted in `waiting` before
  its URI is checked and its subrequest is created. The entry's query
  string is joined to its `args` option with `&`. The new subrequest is
  adjusted to the entry's options.
- **Adjusting a subrequest** (`ChildRequest.Request.Adjust`). Either the
  request-header list is rebuilt, or the inherited one is kept:
  - the rebuilt list is a synthesised Content-Length, then the extra
    headers, then the parent's headers;
  - the method code and name are set, and an unsupported code fails;
  - the variable array is the parent's own (share), a copy of it (copy),
    or zero-filled;
  - the variable overrides are applied in order, up to the first one that
    cannot be applied.
- **Finishing a subrequest** (`Join.SubrequestCtx.PostSubrequest`). The
  post handler runs at most once per subrequest. It decrements `waiting`
  and raises `done` when the count reaches zero. It fills only its own
  slot, with:
  - the resolved status;
  - the subrequest's `headers_out`;
  - its buffered body concatenated into one string, with the buffers left
    drained.
- **Delivering the results** (`Join.JoinState.HandleSubreqResponses`). When
  `done`, each slot becomes the `{status, body, header}` table the script
  receives:
  - raw response headers are folded into a multimap keyed by the exact
    name, and each visited header is marked by zeroing its hash;
  - Content-Type, Content-Length, Location and Last-Modified are then
    written over it.

Modules, one per file:
- `Ngx` (ngx.dfy): host constants, ASCII case folding, header-list
  elements and the `%O` decimal rendering.
- `Headers` (headers.dfy): the response-header aggregation and the
  `HeadersOut` object.
- `ChildRequest` (child_request.dfy): the args join, method names, the
  request-header rebuild, variable inheritance and overrides, and the
  `Request` object.
- `Join` (join.dfy): the parent's join state, the per-subrequest context,
  body buffers, the post handler, batch submission and result delivery.

### The parent-header copy is modelled as written

The comment at src/ngx_http_lua_subrequest.c:1167 says the copy forwards
the parent's "other" request headers, those not already present. The
test at src/ngx_http_lua_subrequest.c:1199-1211 does something different:
- it finds the first element whose name matches ignoring case;
- it skips the parent's header only when the part holding that match is
  not the last part of the list;
- parts hold 20 elements (:1233).

So on a list shorter than 21 elements every duplicate is copied. A
parent Content-Length then sits beside the synthesised one. The model
follows the code: see `CopyAsWritten`, `CopyAsWrittenSmallLists` and
`RebuiltHeadersKeepParentContentLength`.

## Model

| member | source | states |
|---|---|---|
| Ngx.Lower | src/ngx_http_lua_subrequest.c:1080-1085 | `ngx_strlow` keeps the length, maps each upper-case ASCII letter to the code 32 higher, keeps every other character, and leaves no upper-case letter |
| Ngx.LowerIdempotent | src/ngx_http_lua_subrequest.c:1080-1085 | lower-casing an already lower-cased name changes nothing |
| Ngx.Decimal | src/ngx_http_lua_subrequest.c:1122-1129 | `%O` of a length is a non-empty digit string with no leading zero (it starts with '0' only for 0) |
| Ngx.DecimalRoundTrip | src/ngx_http_lua_subrequest.c:1122-1129 | reading the rendered Content-Length value back as a decimal gives the length |
| Headers.Merge | src/ngx_http_lua_subrequest.c:1325-1395 | the raw-header table built by `Push`, element by element, never holds a number, and each entry is a string or a list of at least two values |
| Headers.MergeGroupsOccurrences | src/ngx_http_lua_subrequest.c:1341-1394 | a name is present exactly when it has a live element; one live element gives a string, several give the list of their values in list order |
| Headers.MergeOfVisitedIsEmpty | src/ngx_http_lua_subrequest.c:1341-1346 | folding a list after `Visited` has zeroed every hash adds no raw header |
| Headers.SlotRawHeader | src/ngx_http_lua_subrequest.c:1296-1395 | in `AggregateSlot`, status and body pass through (an absent body reads as ""); every non-derived header name follows the merge rule |
| Headers.SlotContentLength | src/ngx_http_lua_subrequest.c:1404-1413 | Content-Length is the number `content_length_n` iff there is no Content-Length object and the number is non-negative; otherwise the raw entry is kept |
| Headers.SlotLastModified | src/ngx_http_lua_subrequest.c:1424-1443 | in `Synthesized` and `ClearStaleLastModified`, Last-Modified is the formatted time iff a time is set, no header object exists and the status is 200/206/304/204; other statuses clear both fields |
| Headers.SlotContentTypeAndLocation | src/ngx_http_lua_subrequest.c:1397-1422 | a non-empty Content-Type or Location overwrites the raw entry; an empty one leaves the raw entry as it was |
| Headers.SecondAggregationAddsNoRawHeader | src/ngx_http_lua_subrequest.c:1340-1346 | aggregating the same headers again yields only the four derived names |
| Headers.HeadersOut.CollectRaw | src/ngx_http_lua_subrequest.c:1322-1395 | the loop builds the merged table of the list and leaves every element visited; no other field changes |
| Headers.HeadersOut.AddSynthesized | src/ngx_http_lua_subrequest.c:1397-1443 | the derived entries are written over the table; only the stale Last-Modified fields change on the object |
| Headers.HeadersOut.Aggregate | src/ngx_http_lua_subrequest.c:1295-1445 | one slot's result and the object's new state are the aggregation functions of its old state |
| ChildRequest.JoinArgs | src/ngx_http_lua_subrequest.c:477-495 | an empty query gives the option; an empty option keeps the query; otherwise query, '&', option, of length sum + 1 |
| ChildRequest.FieldsOfJoin | src/ngx_http_lua_subrequest.c:480-495 | the '&'-separated fields of `a & e` are the fields of `a` followed by those of `e` |
| ChildRequest.JoinArgsKeepsFields | src/ngx_http_lua_subrequest.c:480-495 | joining two non-empty query strings keeps every field of both, in order |
| ChildRequest.MethodName | src/ngx_http_lua_subrequest.c:604-634 | a name exists exactly for GET, POST, PUT, HEAD, DELETE and OPTIONS |
| ChildRequest.MethodCode | src/ngx_http_lua_subrequest.c:604-634 | a code exists exactly for the six supported names |
| ChildRequest.MethodNameRoundTrip | src/ngx_http_lua_subrequest.c:604-634 | a supported method code and its request-line name determine each other |
| ChildRequest.ExtraEltsMembers | src/ngx_http_lua_subrequest.c:1039-1089 | in `ExtraElts`, an element is appended iff it comes from an extra header not named Content-Length in any case; each carries the built-element hash marker 1 (so it counts as live; the server's `ngx_hash_key_lc` of an empty name would be 0) and `lowcase_key` = lower-cased key |
| ChildRequest.CopyAsWritten | src/ngx_http_lua_subrequest.c:1172-1219 | the copy only appends: the list keeps its prefix and grows by at most the parent's header count |
| ChildRequest.CopyAsWrittenSmallLists | src/ngx_http_lua_subrequest.c:1185-1218 | while the list fits in one part of 20, every parent header is appended, duplicates included |
| ChildRequest.RebuiltHeadersLayout | src/ngx_http_lua_subrequest.c:1226-1266 | the rebuilt list starts with Content-Length, whose value reads back as the length, then the extra headers in order, then (when it fits in one part) the parent's headers unchanged |
| ChildRequest.RebuiltHeadersKeepParentContentLength | src/ngx_http_lua_subrequest.c:1199-1218 | a parent Content-Length survives beside the synthesised one when the list fits in one part |
| ChildRequest.ClassifyRejections | src/ngx_http_lua_subrequest.c:714-774 | `Classify` looks the variable up under the lower-cased name; a read-only variable gives 500; an unknown one, or one with neither set handler nor index, gives NGX_ERROR |
| ChildRequest.AddVars | src/ngx_http_lua_subrequest.c:698-776 | applying overrides never changes the size of the variable array |
| ChildRequest.AddVarsLastAssignmentWins | src/ngx_http_lua_subrequest.c:752-766 | when every override is accepted, an indexed variable's slot ends with the value of the last override naming it |
| ChildRequest.AddVarsCallsInOrder | src/ngx_http_lua_subrequest.c:730-749 | when every override is accepted, the set handlers are called once per handled override, with the lower-cased name and the value, in input order |
| ChildRequest.OverridesRc | src/ngx_http_lua_subrequest.c:698-776 | the overrides' code is NGX_OK exactly when no override is refused |
| ChildRequest.AddVarsRc | src/ngx_http_lua_subrequest.c:698-776 | the code the overrides return is `OverridesRc`, which depends on the entries and the configuration only |
| ChildRequest.AdjustRcOk | src/ngx_http_lua_subrequest.c:602-667 | in `AdjustRc`, an adjustment returns NGX_OK exactly when the method is supported and no override is refused |
| ChildRequest.AddVarsSucceedsIff | src/ngx_http_lua_subrequest.c:698-776 | the overrides return NGX_OK iff none of them is refused |
| ChildRequest.AddVarsStopsAtFirstRejection | src/ngx_http_lua_subrequest.c:723-773 | the first refused override ends the run with its code; all earlier overrides stay applied and no later one is |
| ChildRequest.AddVarsTouchesOnlyAssignedSlots | src/ngx_http_lua_subrequest.c:752-760 | a slot no applied override names keeps its value |
| ChildRequest.Request.Subrequest | src/ngx_http_lua_subrequest.c:522 | a new subrequest inherits the parent's request headers, length, body and the variable array itself, with method GET |
| ChildRequest.Request.SetContentLengthHeader | src/ngx_http_lua_subrequest.c:1096-1148 | appends the Content-Length element and records it and the length on the request |
| ChildRequest.Request.SetExtraHeaders | src/ngx_http_lua_subrequest.c:1028-1093 | the loop appends exactly the extra-header elements, in input order |
| ChildRequest.Request.CopyParentHeaders | src/ngx_http_lua_subrequest.c:1151-1223 | the nested loops produce the as-written copy of the parent's headers; with no parent nothing changes |
| ChildRequest.FirstMatch | src/ngx_http_lua_subrequest.c:1185-1207 | the scan stops at the first element whose name matches ignoring case, or at the end |
| ChildRequest.Request.SetHeaders | src/ngx_http_lua_subrequest.c:1226-1266 | the request-header list becomes the rebuilt list, and the length and Content-Length element are set |
| ChildRequest.Request.AddExtraVars | src/ngx_http_lua_subrequest.c:671-777 | the loop leaves the variable array, the set-handler calls and the return code as `AddVars` says |
| ChildRequest.Request.ApplyBody | src/ngx_http_lua_subrequest.c:579-600 | as `RebuildsHeaders` says: with a body, or for a non-PUT/POST method under a positive parent length, the headers are rebuilt (the body dropped in the second case); otherwise nothing changes |
| ChildRequest.Request.ApplyVars | src/ngx_http_lua_subrequest.c:641-667 | as `InheritedVars` says: share keeps the inherited array; otherwise a fresh array, a copy of the parent's or zero-filled, leaving the old one untouched; then the overrides |
| ChildRequest.Request.Adjust | src/ngx_http_lua_subrequest.c:565-668 | header rebuild, method code, then NGX_ERROR for an unsupported method, or method name, variable policy and overrides |
| Join.ResolveStatusCases | src/ngx_http_lua_subrequest.c:937-951 | in `ResolveStatus`, the recorded status is 500 on NGX_ERROR, `rc` when at least 300, the response status otherwise, with 0 turned into 200; never 0 |
| Join.CapturedBody | src/ngx_http_lua_subrequest.c:963-995 | no data exactly when the chain holds no bytes; otherwise the non-empty concatenation of the buffers in order |
| Join.FlattenLength | src/ngx_http_lua_subrequest.c:965-969 | the summed `last - pos` lengths are the length of the concatenation |
| Join.CountPendingMark | src/ngx_http_lua_subrequest.c:919-923 | finishing a pending subrequest lowers the pending count by exactly one |
| Join.CountPendingZero | src/ngx_http_lua_subrequest.c:919-923 | nothing is pending exactly when every subrequest has finished |
| Join.CountPendingNoneRan | src/ngx_http_lua_subrequest.c:169-175 | before any subrequest finishes, all are pending |
| Join.Finish | src/ngx_http_lua_subrequest.c:919-995 | a completion writes status, headers and body into slot `i` and leaves every other slot unchanged |
| Join.FinishKeepsInvariant | src/ngx_http_lua_subrequest.c:919-995 | a completion finds `waiting >= 1` and `done` unset, and restores the join invariant (`waiting` counts pending subrequests, `done` iff none is left) |
| Join.StartKeepsInvariant | src/ngx_http_lua_subrequest.c:145-175 | a fully submitted batch with empty slots satisfies the join invariant |
| Join.SubrequestCtx.PostSubrequest | src/ngx_http_lua_subrequest.c:887-1025 | a second run returns `rc` and changes nothing; without a parent context it returns NGX_ERROR; otherwise the join state advances by `Finish` of the resolved status, the headers and the captured body, on any sized join state, including one left by a failed submission |
| Join.SubrequestCtx.Complete | src/ngx_http_lua_subrequest.c:919-995 | the first run under a parent context establishes `Completed`: `Finish` applied, the slot marked finished, the join invariant kept whenever it held before, buffers drained |
| Join.SubrequestCtx.MarkFinished | src/ngx_http_lua_subrequest.c:906-957 | sets the run flag, applies `FinishCounters` (count down, `done` at zero, status and headers of its slot) and keeps the invariant whenever it held before |
| Join.SubrequestCtx.CaptureBody | src/ngx_http_lua_subrequest.c:963-995 | the captured body is `CapturedBody` of the chain; every buffer ends drained with `pos` unchanged; with no bytes no buffer changes |
| Join.SubrequestCtx.ChainLength | src/ngx_http_lua_subrequest.c:963-969 | the first loop sums the unread lengths of the chain |
| Join.SubrequestCtx.DrainChain | src/ngx_http_lua_subrequest.c:978-995 | the second loop returns the concatenation in chain order and sets `last = pos` in each buffer |
| Join.ZeroTotalMeansEmptyParts | src/ngx_http_lua_subrequest.c:969-974 | a zero total means every buffer of the chain is empty |
| Join.Issue | src/ngx_http_lua_subrequest.c:477-536 | the new subrequest satisfies `Submitted`: the path, the joined query, the method code and (when supported) name; when rebuilt, the rebuilt headers, the entry's length, Content-Length element and body (none in the bodiless case), otherwise the parent's headers, length, Content-Length element and body; its variables are the parent's own, or a fresh array holding `AddVars` of the inherited values; `rc` is `AdjustRc` of the entry |
| Join.SubmitFromCases | src/ngx_http_lua_subrequest.c:174-536 | `SubmitFrom` yields exactly when every entry passes `EntryAccepted`; otherwise it fails at the first entry that does not, with UnsafeUri for a refused URI or the entry's `AdjustRc` code |
| Join.JoinState.Record | src/ngx_http_lua_subrequest.c:919-957 | applies `FinishCounters`: decrements `waiting`, raises `done` at zero and fills status and headers of slot `i` only; marks the slot finished and keeps the invariant whenever it held before |
| Join.JoinState.StoreBody | src/ngx_http_lua_subrequest.c:961-982 | stores the captured body in slot `i` only, keeping the invariant of a finished slot |
| Join.JoinState.DoneIffAllFinished | src/ngx_http_lua_subrequest.c:919-923 | `done` holds exactly when every subrequest's post handler has run |
| Join.JoinState.CaptureMulti | src/ngx_http_lua_subrequest.c:115-561 | no entries is an error; otherwise fresh empty slots and the outcome `SubmitFrom`: it yields exactly when every entry is accepted, with `waiting` equal to the entry count and the invariant holding; otherwise it fails at the first refused entry k, with its reason and code, every earlier entry accepted and `waiting` at k+1; slot i holds a fresh unstarted context and a subrequest satisfying `Submitted` for entry i (path, query, method code and name, and the rebuilt or inherited headers, length and body) |
| Join.JoinState.Reset | src/ngx_http_lua_subrequest.c:145-170 | fresh arrays of empty slots, nothing counted, finished or done |
| Join.JoinState.SubmitEach | src/ngx_http_lua_subrequest.c:174-536 | the loop's outcome is `SubmitFrom` of the entries; it counts each entry before checking it, stops at the first unsafe URI or failed adjustment, and creates one fresh context per issued subrequest with its own index |
| Join.JoinState.SubmitEntry | src/ngx_http_lua_subrequest.c:467-536 | one entry fails as `EntryFailure` says; unless its URI is refused, it appends a fresh unstarted context for its slot and its subrequest |
| Join.JoinState.AllHeadersPresent | src/ngx_http_lua_subrequest.c:957 | once done, every slot holds a headers pointer |
| Join.JoinState.HandleSubreqResponses | src/ngx_http_lua_subrequest.c:1269-1449 | once done, each slot's result is `AggregateSlot` of its status, body and headers, and each `headers_out` is left visited |
| Join.AggregateEach | src/ngx_http_lua_subrequest.c:1286-1448 | the slot loop aggregates each (distinct) headers object once, in slot order |

## Left out

- Lua marshalling, option-table walking, option type checks and
  `lua_yield` are not modelled. A batch entry arrives as a `CaptureSpec`
  value, and every Lua error is one outcome (`NoSubrequests` or `Failed`).
- The `ctx` option and `ngx_http_lua_ngx_set_ctx_helper` are left out.
  They are Lua-side state only.
- `ngx_http_parse_unsafe_uri` is a function parameter that either splits
  the URI into path and query or refuses it.
- `ngx_http_subrequest` is not part of this model. The `Subrequest`
  constructor stands for the fields the new request inherits, and its own
  failure path is not modelled.
- `ngx_http_time` is a function parameter. The model does not check the
  HTTP-date format.
- The set-handler callbacks of variables are recorded as calls (name and
  value) and not run.
- Out-of-memory paths, pool allocation and `ngx_pfree` of captured bodies
  are left out.
- `ngx_chain_update_chains` is left out: buffer recycling into the
  parent's free and busy lists.
- `ngx_http_post_request` and the `write_event_handler` restoration are
  left out, as are the debug logging and error log messages.
- The list-part workaround after the method switch is left out.
- The header list is a flat sequence whose parts of 20 are computed from
  positions. A subrequest that keeps the inherited list gets a copy of the
  parent's list value, so the shared part storage is not modelled.
- The `hash` of a header element is a marker only: 0 means visited, and
  built elements carry 1. The hash functions themselves are not modelled.
- NUL bytes inside names are not modelled. The model compares names of
  equal length byte by byte ignoring ASCII case, while `ngx_strncasecmp`
  would stop at a NUL.
- The order of Lua table entries is not modelled. Extra headers and
  variable overrides are sequences in the order the C loops visit them.
- `waiting` is an unbounded integer.
- Join.SubrequestCtx.PostSubrequest and Join.JoinState.HandleSubreqResponses
  require the buffers of one chain, and the headers objects of one batch, to
  be distinct objects. The server allocates each separately.
- Join.SubrequestCtx.PostSubrequest does not model a script that catches a
  failed submission and submits again on the same parent while subrequests
  of the failed batch still run. `Reset` gives the new batch fresh arrays, a
  zero count and an all-false ghost record. In the server, a leftover
  subrequest's post handler then decrements the new batch's `waiting`, can
  raise `done` before the new subrequests finish, and writes slot `index` of
  the new arrays, out of bounds when the new batch is smaller
  (src/ngx_http_lua_subrequest.c:919-995). The model admits such a context
  only when its index fits; it then marks that slot finished in the ghost
  record, so `DoneIffAllFinished` speaks of that record, not of the contexts
  the new batch created.
- Join.SubrequestCtx.PostSubrequest couples each context to the parent's
  ghost record of finished slots through its precondition. The model does
  not track the contexts themselves from the parent.
- Join.SubrequestCtx.Complete stores the body after the counters, the
  status and the headers, as the source does. Allocation of the body
  buffer cannot fail in the model, so the source's early NGX_ERROR return
  between those steps does not exist here.
