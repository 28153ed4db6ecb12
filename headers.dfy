/**
  Turning a finished subrequest's response headers into the table the
  script sees (`ngx_http_lua_handle_subreq_responses`, per slot).

  The raw header list is folded into a table keyed by the exact header name:
  the first live occurrence of a name is stored as text, a second one turns
  the entry into a list of both, later ones are appended. Every visited
  element has its hash zeroed; elements whose hash is already zero are
  skipped. Afterwards Content-Type, Content-Length, Location and
  Last-Modified are written over whatever the raw pass left under those
  exact names.
*/
module Headers {
  import opened Ngx

  /** A value in the script's header table: a string, a list of strings, or a number. */
  datatype HeaderValue = Text(s: seq<char>) | List(items: seq<seq<char>>) | Number(n: int)

  type HeaderTable = map<seq<char>, HeaderValue>

  predicate NoNumbers(t: HeaderTable) {
    forall k | k in t :: !t[k].Number?
  }

  /** One turn of the raw-header loop. */
  function Push(t: HeaderTable, e: TableElt): (r: HeaderTable)
    requires NoNumbers(t)
  {
    if e.hash == 0 then t
    else if e.key !in t then t[e.key := Text(e.value)]
    else match t[e.key]
      case Text(first) => t[e.key := List([first, e.value])]
      case List(items) => t[e.key := List(items + [e.value])]
  }

  /** The table the raw-header loop builds from a header list, in list order. */
  function Merge(elts: seq<TableElt>): (t: HeaderTable)
    ensures NoNumbers(t)
    ensures forall k | k in t :: t[k].Text? || |t[k].items| >= 2
    decreases |elts|
  {
    if elts == [] then map[]
    else Push(Merge(elts[..|elts| - 1]), elts[|elts| - 1])
  }

  /** The values of the live elements named exactly `k`, in list order. */
  function Occurrences(elts: seq<TableElt>, k: seq<char>): seq<seq<char>>
    decreases |elts|
  {
    if elts == [] then []
    else
      var e := elts[|elts| - 1];
      Occurrences(elts[..|elts| - 1], k) + (if e.hash != 0 && e.key == k then [e.value] else [])
  }

  /**
    The merge rule: a name with no live element is absent, a name with one
    is a string, a name with several is the list of their values in order.
  */
  lemma {:induction false} MergeGroupsOccurrences(elts: seq<TableElt>, k: seq<char>)
    ensures var occ := Occurrences(elts, k);
      && (k in Merge(elts) <==> |occ| > 0)
      && (|occ| == 1 ==> Merge(elts)[k] == Text(occ[0]))
      && (|occ| >= 2 ==> Merge(elts)[k] == List(occ))
    decreases |elts|
  {
    if elts != [] {
      MergeGroupsOccurrences(elts[..|elts| - 1], k);
    }
  }

  lemma MergeStep(elts: seq<TableElt>, i: nat)
    requires i < |elts|
    ensures Merge(elts[..i + 1]) == Push(Merge(elts[..i]), elts[i])
  {
    assert elts[..i + 1][..i] == elts[..i];
  }

  /** Every element with its hash zeroed: the list after one aggregation. */
  function Visited(elts: seq<TableElt>): (r: seq<TableElt>)
    ensures |r| == |elts|
    ensures forall i :: 0 <= i < |elts| ==> r[i] == elts[i].(hash := 0)
  {
    seq(|elts|, i requires 0 <= i < |elts| => elts[i].(hash := 0))
  }

  /** A second aggregation over a visited list adds no raw header. */
  lemma {:induction false} MergeOfVisitedIsEmpty(elts: seq<TableElt>)
    ensures Merge(Visited(elts)) == map[]
    decreases |elts|
  {
    if elts != [] {
      var v := Visited(elts);
      assert v[..|v| - 1] == Visited(elts[..|elts| - 1]);
      MergeOfVisitedIsEmpty(elts[..|elts| - 1]);
    }
  }

  /** The fields of a subrequest's `headers_out` that the aggregation reads or writes. */
  datatype ResponseHeaders = ResponseHeaders(
    headers: seq<TableElt>,
    status: int,
    contentType: seq<char>,
    contentLength: Option<TableElt>,
    contentLengthN: int,
    location: Option<TableElt>,
    lastModifiedTime: int,
    lastModified: Option<TableElt>)

  /** The statuses for which a Last-Modified time is reported. */
  predicate KeepsLastModified(status: int) {
    status == HttpOk || status == HttpPartialContent || status == HttpNotModified || status == HttpNoContent
  }

  /** For any other status a set Last-Modified time and header are dropped. */
  function ClearStaleLastModified(h: ResponseHeaders): ResponseHeaders {
    if h.lastModifiedTime != -1 && !KeepsLastModified(h.status)
    then h.(lastModifiedTime := -1, lastModified := None)
    else h
  }

  /** The four derived entries, each an unconditional overwrite of the raw table. */
  function Synthesized(t: HeaderTable, h: ResponseHeaders, httpTime: int -> seq<char>): HeaderTable {
    var t1 := if |h.contentType| != 0 then t["Content-Type" := Text(h.contentType)] else t;
    var t2 := if h.contentLength.None? && h.contentLengthN >= 0
              then t1["Content-Length" := Number(h.contentLengthN)] else t1;
    var t3 := if h.location.Some? && |h.location.value.value| != 0
              then t2["Location" := Text(h.location.value.value)] else t2;
    if h.lastModified.None? && h.lastModifiedTime != -1
    then t3["Last-Modified" := Text(httpTime(h.lastModifiedTime))] else t3
  }

  /** What the script receives for one subrequest. */
  datatype Capture = Capture(status: int, body: seq<char>, header: HeaderTable)

  /** The result built for one slot from its status, body and response headers. */
  function AggregateSlot(status: int, body: Option<seq<char>>, h: ResponseHeaders,
                         httpTime: int -> seq<char>): Capture
  {
    Capture(status, if body.Some? then body.value else [],
            Synthesized(Merge(h.headers), ClearStaleLastModified(h), httpTime))
  }

  /** The subrequest's response headers after the aggregation has read them. */
  function AfterAggregation(h: ResponseHeaders): ResponseHeaders {
    ClearStaleLastModified(h).(headers := Visited(h.headers))
  }

  predicate IsSynthesizedName(k: seq<char>) {
    k == "Content-Type" || k == "Content-Length" || k == "Location" || k == "Last-Modified"
  }

  /** Status and body pass through; any other header name follows the merge rule. */
  lemma SlotRawHeader(status: int, body: Option<seq<char>>, h: ResponseHeaders,
                      httpTime: int -> seq<char>, k: seq<char>)
    requires !IsSynthesizedName(k)
    ensures var c := AggregateSlot(status, body, h, httpTime);
            var occ := Occurrences(h.headers, k);
      && c.status == status
      && (body.None? ==> c.body == [])
      && (body.Some? ==> c.body == body.value)
      && (k in c.header <==> |occ| > 0)
      && (|occ| == 1 ==> c.header[k] == Text(occ[0]))
      && (|occ| >= 2 ==> c.header[k] == List(occ))
  {
    MergeGroupsOccurrences(h.headers, k);
  }

  /**
    Content-Length is the number `content_length_n` exactly when the
    subrequest has no Content-Length header object and the number is known;
    otherwise the entry is whatever the raw headers produced.
  */
  lemma SlotContentLength(status: int, body: Option<seq<char>>, h: ResponseHeaders,
                          httpTime: int -> seq<char>)
    ensures var c := AggregateSlot(status, body, h, httpTime);
            var raw := Merge(h.headers);
      && (h.contentLength.None? && h.contentLengthN >= 0 ==>
            "Content-Length" in c.header && c.header["Content-Length"] == Number(h.contentLengthN))
      && (!(h.contentLength.None? && h.contentLengthN >= 0) ==>
            ("Content-Length" in c.header <==> "Content-Length" in raw)
            && ("Content-Length" in raw ==> c.header["Content-Length"] == raw["Content-Length"])
            && ("Content-Length" in c.header ==> !c.header["Content-Length"].Number?))
  {
  }

  /**
    Last-Modified is the formatted time exactly when a time is set, no
    Last-Modified header object exists and the status is 200, 206, 304 or
    204; otherwise the entry is whatever the raw headers produced. For any
    other status a set time and header object are cleared.
  */
  lemma SlotLastModified(status: int, body: Option<seq<char>>, h: ResponseHeaders,
                         httpTime: int -> seq<char>)
    ensures var c := AggregateSlot(status, body, h, httpTime);
            var raw := Merge(h.headers);
            var emitted := h.lastModifiedTime != -1 && h.lastModified.None? && KeepsLastModified(h.status);
      && (emitted ==> "Last-Modified" in c.header
                      && c.header["Last-Modified"] == Text(httpTime(h.lastModifiedTime)))
      && (!emitted ==> ("Last-Modified" in c.header <==> "Last-Modified" in raw)
                       && ("Last-Modified" in raw ==> c.header["Last-Modified"] == raw["Last-Modified"]))
      && (h.lastModifiedTime != -1 && !KeepsLastModified(h.status) ==>
            AfterAggregation(h).lastModifiedTime == -1 && AfterAggregation(h).lastModified.None?)
  {
  }

  /** Content-Type and Location overwrite the raw entries when non-empty. */
  lemma SlotContentTypeAndLocation(status: int, body: Option<seq<char>>, h: ResponseHeaders,
                                   httpTime: int -> seq<char>)
    ensures var c := AggregateSlot(status, body, h, httpTime);
            var raw := Merge(h.headers);
      && (|h.contentType| != 0 ==> "Content-Type" in c.header && c.header["Content-Type"] == Text(h.contentType))
      && (|h.contentType| == 0 ==> ("Content-Type" in c.header <==> "Content-Type" in raw))
      && (|h.contentType| == 0 && "Content-Type" in raw ==> c.header["Content-Type"] == raw["Content-Type"])
      && (h.location.Some? && |h.location.value.value| != 0 ==>
            "Location" in c.header && c.header["Location"] == Text(h.location.value.value))
      && (!(h.location.Some? && |h.location.value.value| != 0) ==>
            ("Location" in c.header <==> "Location" in raw))
      && (!(h.location.Some? && |h.location.value.value| != 0) && "Location" in raw ==>
            c.header["Location"] == raw["Location"])
  {
  }

  /**
    Aggregating the same headers a second time finds no live raw header:
    the result holds at most the four derived entries.
  */
  lemma SecondAggregationAddsNoRawHeader(status: int, body: Option<seq<char>>, h: ResponseHeaders,
                                         httpTime: int -> seq<char>)
    ensures var c := AggregateSlot(status, body, AfterAggregation(h), httpTime);
      forall k | k in c.header :: IsSynthesizedName(k)
  {
    MergeOfVisitedIsEmpty(h.headers);
  }

  /**
    The `headers_out` of one subrequest. The aggregation zeroes the hash of
    each header it visits and may clear the Last-Modified fields.
  */
  class HeadersOut {
    var headers: seq<TableElt>
    var status: int
    var contentType: seq<char>
    var contentLength: Option<TableElt>
    var contentLengthN: int
    var location: Option<TableElt>
    var lastModifiedTime: int
    var lastModified: Option<TableElt>

    function Value(): ResponseHeaders
      reads this
    {
      ResponseHeaders(headers, status, contentType, contentLength, contentLengthN,
                      location, lastModifiedTime, lastModified)
    }

    /** Headers as a fresh subrequest starts with them: empty, no status, unknown length and time. */
    constructor ()
      ensures Value() == ResponseHeaders([], 0, [], None, -1, None, -1, None)
    {
      headers, status, contentType := [], 0, [];
      contentLength, contentLengthN := None, -1;
      location, lastModifiedTime, lastModified := None, -1, None;
    }

    /** The raw-header loop: builds the table and marks every element visited. */
    method CollectRaw() returns (t: HeaderTable)
      modifies this
      ensures t == Merge(old(headers))
      ensures Value() == old(Value()).(headers := Visited(old(headers)))
    {
      ghost var elts := headers;
      t := map[];
      var i := 0;
      while i < |headers|
        invariant 0 <= i <= |headers| == |elts|
        invariant forall j :: 0 <= j < i ==> headers[j] == elts[j].(hash := 0)
        invariant forall j :: i <= j < |elts| ==> headers[j] == elts[j]
        invariant t == Merge(elts[..i])
        invariant Value() == old(Value()).(headers := headers)
      {
        MergeStep(elts, i);
        var e := headers[i];
        ghost var before := t;
        if e.hash != 0 {
          headers := headers[i := e.(hash := 0)];
          if e.key !in t {
            t := t[e.key := Text(e.value)];
          } else {
            match t[e.key]
            case Text(first) =>
              t := t[e.key := List([first, e.value])];
            case List(items) =>
              t := t[e.key := List(items + [e.value])];
          }
        } else {
          headers := headers[i := e.(hash := 0)];
        }
        assert t == Push(before, e);
        i := i + 1;
      }
      assert elts[..i] == elts;
      assert headers == Visited(elts);
    }

    /** Drops a stale Last-Modified and writes the four derived entries over `t`. */
    method AddSynthesized(t: HeaderTable, httpTime: int -> seq<char>) returns (r: HeaderTable)
      modifies this
      ensures Value() == ClearStaleLastModified(old(Value()))
      ensures r == Synthesized(t, Value(), httpTime)
    {
      r := t;
      if |contentType| != 0 {
        r := r["Content-Type" := Text(contentType)];
      }
      if contentLength.None? && contentLengthN >= 0 {
        r := r["Content-Length" := Number(contentLengthN)];
      }
      if location.Some? && |location.value.value| != 0 {
        r := r["Location" := Text(location.value.value)];
      }
      if lastModifiedTime != -1 {
        if !KeepsLastModified(status) {
          lastModifiedTime := -1;
          lastModified := None;
        }
      }
      if lastModified.None? && lastModifiedTime != -1 {
        r := r["Last-Modified" := Text(httpTime(lastModifiedTime))];
      }
    }

    /** One slot of the aggregation: what the script receives for this subrequest. */
    method Aggregate(status: int, body: Option<seq<char>>, httpTime: int -> seq<char>) returns (c: Capture)
      modifies this
      ensures c == AggregateSlot(status, body, old(Value()), httpTime)
      ensures Value() == AfterAggregation(old(Value()))
    {
      ghost var v0 := Value();
      var t := CollectRaw();
      ghost var v1 := Value();
      var header := AddSynthesized(t, httpTime);
      assert ClearStaleLastModified(v1) == ClearStaleLastModified(v0).(headers := Visited(v0.headers));
      assert Synthesized(t, ClearStaleLastModified(v1), httpTime) == Synthesized(t, ClearStaleLastModified(v0), httpTime);
      c := Capture(status, if body.Some? then body.value else [], header);
    }
  }
}
