/**
  The join of a batch of captured subrequests.

  Submitting a batch (`ngx.location.capture_multi`) sizes three result
  arrays (statuses, header pointers, bodies) and counts every subrequest
  in `waiting` before it is created. As each subrequest finishes, its
  post handler runs at most once: it decrements `waiting`, raises `done`
  when the count reaches zero, and fills only its own slot with the
  resolved status, its response headers and the concatenation of its
  buffered body (no data when that is empty), draining the buffers. Once
  `done`, every slot is turned into the table the script receives.
*/
module Join {
  import opened Ngx
  import opened Headers
  import opened ChildRequest

  // ---------------------------------------------------------------- status

  /**
    The status recorded for a finished subrequest: 500 when the handler
    reports an error, the handler's code when it is a special response,
    the response status otherwise; a status never set becomes 200.
  */
  function ResolveStatus(rc: int, outStatus: int): (s: int)
  {
    var s0 := if rc == NgxError then HttpInternalServerError
              else if rc >= HttpSpecialResponse then rc
              else outStatus;
    if s0 == 0 then HttpOk else s0
  }

  /** The recorded status is never zero, and each of the three sources wins exactly in its case. */
  lemma ResolveStatusCases(rc: int, outStatus: int)
    ensures ResolveStatus(rc, outStatus) != 0
    ensures rc == NgxError ==> ResolveStatus(rc, outStatus) == HttpInternalServerError
    ensures rc != NgxError && rc >= HttpSpecialResponse ==> ResolveStatus(rc, outStatus) == rc
    ensures rc != NgxError && rc < HttpSpecialResponse ==>
      ResolveStatus(rc, outStatus) == (if outStatus == 0 then HttpOk else outStatus)
  {
  }

  // ------------------------------------------------------------------ body

  /** A memory buffer of a body chain: the unread bytes are `data[pos..last]`. */
  class Buf {
    const data: seq<char>
    var pos: nat
    var last: nat

    predicate Valid()
      reads this
    {
      pos <= last <= |data|
    }

    function Contents(): seq<char>
      reads this
      requires Valid()
    {
      data[pos..last]
    }
  }

  function TotalLength(parts: seq<seq<char>>): nat
    decreases |parts|
  {
    if parts == [] then 0 else TotalLength(parts[..|parts| - 1]) + |parts[|parts| - 1]|
  }

  function Flatten(parts: seq<seq<char>>): seq<char>
    decreases |parts|
  {
    if parts == [] then [] else Flatten(parts[..|parts| - 1]) + parts[|parts| - 1]
  }

  /** The summed lengths are the length of the concatenation. */
  lemma {:induction false} FlattenLength(parts: seq<seq<char>>)
    ensures |Flatten(parts)| == TotalLength(parts)
    decreases |parts|
  {
    if parts != [] {
      FlattenLength(parts[..|parts| - 1]);
    }
  }

  /** The body stored for a subrequest: no data when the chain holds no bytes, else all bytes in chain order. */
  function CapturedBody(parts: seq<seq<char>>): (b: Option<seq<char>>)
    ensures b.None? <==> TotalLength(parts) == 0
    ensures b.Some? ==> b.value == Flatten(parts) && |b.value| > 0
  {
    FlattenLength(parts);
    if TotalLength(parts) == 0 then None else Some(Flatten(parts))
  }

  // -------------------------------------------------------- waiting count

  /** The number of subrequests whose post handler has not run. */
  function CountPending(ran: seq<bool>): (n: nat)
    ensures n <= |ran|
    decreases |ran|
  {
    if ran == [] then 0 else CountPending(ran[..|ran| - 1]) + (if ran[|ran| - 1] then 0 else 1)
  }

  /** Marking a pending subrequest as finished lowers the count by one. */
  lemma {:induction false} CountPendingMark(ran: seq<bool>, i: nat)
    requires i < |ran| && !ran[i]
    ensures CountPending(ran[i := true]) == CountPending(ran) - 1
    decreases |ran|
  {
    var n := |ran|;
    var ran' := ran[i := true];
    assert ran'[..n - 1] == if i == n - 1 then ran[..n - 1] else ran[..n - 1][i := true];
    if i < n - 1 {
      CountPendingMark(ran[..n - 1], i);
    }
  }

  /** Nothing is pending exactly when every subrequest has finished. */
  lemma {:induction false} CountPendingZero(ran: seq<bool>)
    ensures CountPending(ran) == 0 <==> forall i :: 0 <= i < |ran| ==> ran[i]
    decreases |ran|
  {
    if ran != [] {
      var n := |ran|;
      CountPendingZero(ran[..n - 1]);
      assert forall i :: 0 <= i < n - 1 ==> ran[..n - 1][i] == ran[i];
    }
  }

  /** With nothing finished yet, every subrequest is pending. */
  lemma {:induction false} CountPendingNoneRan(ran: seq<bool>)
    requires forall i :: 0 <= i < |ran| ==> !ran[i]
    ensures CountPending(ran) == |ran|
    decreases |ran|
  {
    if ran != [] {
      CountPendingNoneRan(ran[..|ran| - 1]);
    }
  }

  // ------------------------------------------------------ subrequest side

  /** The unread bytes of each buffer of a chain, in chain order. */
  function Unread(chain: seq<Buf>): (parts: seq<seq<char>>)
    reads set b | b in chain
    requires forall b | b in chain :: b.Valid()
    ensures |parts| == |chain| && forall i :: 0 <= i < |chain| ==> parts[i] == chain[i].Contents()
  {
    seq(|chain|, i requires 0 <= i < |chain| && chain[i].Valid() reads set b | b in chain => chain[i].Contents())
  }

  /** The context of one captured subrequest: its slot, its run flag and its buffered body. */
  class SubrequestCtx {
    const parent: JoinState?
    const index: nat
    var ran: bool
    var body: seq<Buf>

    constructor (parent: JoinState?, index: nat)
      ensures this.parent == parent && this.index == index && !ran && body == []
    {
      this.parent, this.index := parent, index;
      ran, body := false, [];
    }

    /** The body chain holds distinct, well-formed buffers. */
    predicate ChainValid()
      reads this`body, set b | b in body
    {
      && (forall b | b in body :: b.Valid())
      && (forall i, j :: 0 <= i < j < |body| ==> body[i] != body[j])
    }

    /** Every buffer of the chain has been read to its end. */
    predicate Drained()
      reads this`body, set b | b in body
    {
      forall i :: 0 <= i < |body| ==> body[i].last == body[i].pos
    }

    /** The unread bytes of each buffer, in chain order. */
    function BodyParts(): seq<seq<char>>
      reads this`body, set b | b in body
      requires ChainValid()
    {
      Unread(body)
    }

    /**
      The post handler of a captured subrequest `r`, finishing with code `rc`.
      A second run returns `rc` at once; without a parent context it fails.
      Otherwise it counts the subrequest as finished and fills its own slot
      of the parent's arrays, and no other.
    */
    method PostSubrequest(r: Request, rc: int) returns (result: int)
      requires ChainValid()
      requires parent != null ==> parent.Sized() && index < parent.nsubreqs && parent.finished[index] == ran
      modifies this, set b | b in body
      modifies if parent == null then {} else parent.Repr()
      ensures old(ran) ==> result == rc && unchanged(this) && unchanged(set b | b in body)
                           && (parent != null ==> unchanged(old(parent.Repr())))
      ensures !old(ran) ==> ran && body == old(body)
      ensures !old(ran) && parent == null ==> result == NgxError && unchanged(set b | b in body)
      ensures !old(ran) && parent != null ==> result == rc && Completed(r, rc)
    {
      if ran {
        return rc;
      }
      if parent == null {
        ran := true;
        return NgxError;
      }
      Complete(r, rc);
      result := rc;
    }

    /**
      What the first run under a parent context leaves behind: slot `index`
      is marked finished, and the join invariant, when it held before,
      holds again (after a failed submission it never held); the parent's
      counters and slot `index` changed as `Finish` says, with the resolved
      status, the subrequest's headers and the captured body; every buffer
      is drained.
    */
    twostate predicate Completed(r: Request, rc: int)
      requires parent != null
      requires old(ChainValid())
      reads this, r.headersOut, parent, parent.statuses, parent.headers, parent.bodies
      reads set b | b in body
    {
      && ran && body == old(body)
      && parent.Sized()
      && (old(parent.Valid()) ==> parent.Valid())
      && unchanged(parent`nsubreqs)
      && old(index < |parent.finished|) && parent.finished == old(parent.finished)[index := true]
      && parent.statuses == old(parent.statuses) && parent.headers == old(parent.headers)
      && parent.bodies == old(parent.bodies)
      && old(index < parent.statuses.Length && index < parent.headers.Length && index < parent.bodies.Length)
      && parent.Value() == Finish(old(parent.Value()), index, ResolveStatus(rc, r.headersOut.status),
                                  r.headersOut, CapturedBody(old(BodyParts())))
      && Drained()
    }

    /** The first run of the post handler under a parent context. */
    method Complete(r: Request, rc: int)
      requires ChainValid() && !ran && parent != null
      requires parent.Sized() && index < parent.nsubreqs && !parent.finished[index]
      modifies this`ran, set b | b in body
      modifies parent, parent.statuses, parent.headers, parent.bodies
      ensures Completed(r, rc)
    {
      ghost var parts := BodyParts();
      var status := ResolveStatus(rc, r.headersOut.status);
      ResolveStatusCases(rc, r.headersOut.status);
      MarkFinished(status, r.headersOut);
      var captured := CaptureBody();
      assert captured == CapturedBody(parts);
      parent.StoreBody(index, captured);
    }

    /** Sets the run flag, counts the subrequest as finished and records its status and headers. */
    method MarkFinished(status: int, h: HeadersOut)
      requires !ran && parent != null
      requires parent.Sized() && index < parent.nsubreqs && !parent.finished[index]
      requires status != 0
      modifies this`ran, parent, parent.statuses, parent.headers
      ensures ran
      ensures parent.Sized() && parent.finished == old(parent.finished)[index := true]
      ensures old(parent.Valid()) ==> parent.Valid()
      ensures unchanged(parent`nsubreqs)
      ensures parent.statuses == old(parent.statuses) && parent.headers == old(parent.headers)
      ensures parent.bodies == old(parent.bodies)
      ensures parent.Value() == FinishCounters(old(parent.Value()), index, status, h)
    {
      ran := true;
      parent.Record(index, status, h);
    }

    /** The two passes over the chain: sum the lengths, then copy the bytes and drain each buffer. */
    method CaptureBody() returns (captured: Option<seq<char>>)
      requires ChainValid()
      modifies set b | b in body
      ensures captured == CapturedBody(old(BodyParts()))
      ensures Drained()
      ensures forall i :: 0 <= i < |body| ==> body[i].pos == old(body[i].pos)
      ensures captured.None? ==> unchanged(set b | b in body)
    {
      ghost var parts := BodyParts();
      var len := ChainLength();
      if len == 0 {
        forall j | 0 <= j < |body|
          ensures body[j].last == body[j].pos
        {
          ZeroTotalMeansEmptyParts(parts, j);
          assert body[j] in body;
          assert |parts[j]| == body[j].last - body[j].pos;
        }
        return None;
      }
      var p := DrainChain();
      FlattenLength(parts);
      captured := Some(p);
    }

    /** The first pass: the number of unread bytes in the chain. */
    method ChainLength() returns (len: nat)
      requires ChainValid()
      ensures len == TotalLength(BodyParts())
    {
      ghost var parts := BodyParts();
      len := 0;
      var i := 0;
      while i < |body|
        invariant 0 <= i <= |body|
        invariant len == TotalLength(parts[..i])
      {
        assert parts[..i + 1][..i] == parts[..i];
        assert body[i] in body;
        assert |parts[i]| == body[i].last - body[i].pos;
        len := len + (body[i].last - body[i].pos);
        i := i + 1;
      }
      assert parts[..i] == parts;
    }

    /** The second pass: the unread bytes in chain order; each buffer is left empty. */
    method DrainChain() returns (p: seq<char>)
      requires ChainValid()
      modifies set b | b in body
      ensures p == Flatten(old(BodyParts()))
      ensures Drained()
      ensures forall i :: 0 <= i < |body| ==> body[i].pos == old(body[i].pos)
    {
      ghost var parts := BodyParts();
      p := [];
      var i := 0;
      while i < |body|
        invariant 0 <= i <= |body|
        invariant p == Flatten(parts[..i])
        invariant forall j :: 0 <= j < i ==> body[j].pos == old(body[j].pos) && body[j].last == body[j].pos
        invariant forall j :: i <= j < |body| ==> body[j].pos == old(body[j].pos) && body[j].last == old(body[j].last)
        invariant forall j :: i <= j < |body| ==> body[j].Valid() && body[j].Contents() == parts[j]
      {
        assert parts[..i + 1][..i] == parts[..i];
        var b := body[i];
        assert b.data[b.pos..b.last] == parts[i];
        p := p + b.data[b.pos..b.last];
        b.last := b.pos;
        i := i + 1;
      }
      assert parts[..i] == parts;
    }
  }

  /** A chain whose lengths sum to zero holds no bytes in any buffer. */
  lemma {:induction false} ZeroTotalMeansEmptyParts(parts: seq<seq<char>>, j: nat)
    requires TotalLength(parts) == 0 && j < |parts|
    ensures parts[j] == []
    decreases |parts|
  {
    if j < |parts| - 1 {
      ZeroTotalMeansEmptyParts(parts[..|parts| - 1], j);
    }
  }

  // ---------------------------------------------------------- parent side

  /** One entry of a batch, as the options table describes it. */
  datatype CaptureSpec = CaptureSpec(
    uri: seq<char>,
    extraArgs: seq<char>,
    methodCode: nat,
    body: Option<seq<char>>,
    extraHeaders: seq<KeyVal>,
    vars: seq<KeyVal>,
    shareAllVars: bool,
    copyAllVars: bool)

  /** A URI split into path and query by the unsafe-URI check. */
  datatype ParsedUri = ParsedUri(path: seq<char>, args: seq<char>)

  datatype Failure = UnsafeUri | AdjustFailed(rc: int)

  datatype SubmitOutcome = Yielded | NoSubrequests | Failed(index: nat, why: Failure)

  /** The parent's counters and result arrays as values. */
  datatype JoinValue = JoinValue(waiting: int, done: bool, statuses: seq<int>,
                                 headers: seq<HeadersOut?>, bodies: seq<Option<seq<char>>>)

  /**
    The parent-side effect of one finished subrequest: the count drops by
    one, `done` is raised when it reaches zero, and slot `i` receives the
    status, the headers and the body.
  */
  function Finish(v: JoinValue, i: nat, status: int, h: HeadersOut?, body: Option<seq<char>>): (r: JoinValue)
    requires i < |v.statuses| && i < |v.headers| && i < |v.bodies|
    ensures |r.statuses| == |v.statuses| && |r.headers| == |v.headers| && |r.bodies| == |v.bodies|
    ensures r.statuses[i] == status && r.headers[i] == h && r.bodies[i] == body
    ensures forall j :: 0 <= j < |v.statuses| && j != i ==> r.statuses[j] == v.statuses[j]
    ensures forall j :: 0 <= j < |v.headers| && j != i ==> r.headers[j] == v.headers[j]
    ensures forall j :: 0 <= j < |v.bodies| && j != i ==> r.bodies[j] == v.bodies[j]
  {
    var c := FinishCounters(v, i, status, h);
    c.(bodies := c.bodies[i := body])
  }

  /** The part of `Finish` done before the body is captured: the counters, the status and the headers. */
  function FinishCounters(v: JoinValue, i: nat, status: int, h: HeadersOut?): JoinValue
    requires i < |v.statuses| && i < |v.headers|
  {
    v.(waiting := v.waiting - 1, done := if v.waiting - 1 == 0 then true else v.done,
       statuses := v.statuses[i := status], headers := v.headers[i := h])
  }

  /**
    The join invariant over values: `waiting` counts the subrequests not
    yet finished, `done` says none is left, and every finished slot holds a
    non-zero status, its headers, and either no body or a non-empty one,
    while every slot not yet finished is still empty.
  */
  predicate JoinInvariant(ran: seq<bool>, v: JoinValue)
  {
    && |v.statuses| == |ran| && |v.headers| == |ran| && |v.bodies| == |ran|
    && v.waiting == CountPending(ran)
    && (v.done <==> v.waiting == 0)
    && (forall i :: 0 <= i < |ran| && ran[i] ==>
          v.statuses[i] != 0 && v.headers[i] != null && v.bodies[i] != Some([]))
    && (forall i :: 0 <= i < |ran| && !ran[i] ==>
          v.statuses[i] == 0 && v.headers[i] == null && v.bodies[i] == None)
  }

  /**
    A pending subrequest finishing keeps the invariant: the count was
    positive and `done` unset, and afterwards `done` holds exactly when no
    subrequest is left.
  */
  lemma FinishKeepsInvariant(ran: seq<bool>, v: JoinValue, i: nat, status: int, h: HeadersOut?,
                             body: Option<seq<char>>)
    requires JoinInvariant(ran, v)
    requires i < |ran| && !ran[i] && status != 0 && h != null && body != Some([])
    ensures v.waiting >= 1 && !v.done
    ensures JoinInvariant(ran[i := true], FinishCounters(v, i, status, h))
    ensures JoinInvariant(ran[i := true], Finish(v, i, status, h, body))
  {
    CountPendingMark(ran, i);
  }

  /** A batch of `n` slots, none finished yet, with the count at `w`. */
  function Pending(n: nat, w: int): JoinValue {
    JoinValue(w, false, seq(n, _ => 0), seq(n, _ => null), seq(n, _ => None))
  }

  /** A fresh batch of pending subrequests with empty slots satisfies the invariant. */
  lemma StartKeepsInvariant(n: nat)
    requires n > 0
    ensures JoinInvariant(seq(n, _ => false), Pending(n, n))
  {
    CountPendingNoneRan(seq(n, _ => false));
  }

  /**
    What a subrequest looks like once its entry `spec`, with URI split as
    `parsed`, was processed: path, joined query and method; the rebuilt
    request headers, length and body, or else the parent's.
  */
  ghost predicate Submitted(sr: Request, r: Request, spec: CaptureSpec, parsed: ParsedUri)
    reads sr, r
  {
    && sr.parent == r
    && sr.uri == parsed.path
    && sr.args == JoinArgs(parsed.args, spec.extraArgs)
    && sr.methodCode == spec.methodCode
    && (MethodName(spec.methodCode).Some? ==> sr.methodName == MethodName(spec.methodCode).value)
    && (RebuildsHeaders(spec.methodCode, spec.body, r.contentLengthN) ==>
          var len := if spec.body.Some? then |spec.body.value| else 0;
          && sr.headersIn == RebuiltHeaders(len, spec.extraHeaders, r.headersIn)
          && sr.contentLengthN == len && sr.contentLength == Some(ContentLengthElt(len))
          && sr.requestBody == (if spec.body.Some? then spec.body else None))
    && (!RebuildsHeaders(spec.methodCode, spec.body, r.contentLengthN) ==>
          && sr.headersIn == r.headersIn && sr.contentLengthN == r.contentLengthN
          && sr.contentLength == r.contentLength && sr.requestBody == r.requestBody)
  }

  /** An entry goes through: its URI passes the unsafe-URI check and its adjustment returns NGX_OK. */
  predicate EntryAccepted(spec: CaptureSpec, parseUri: seq<char> -> Option<ParsedUri>, conf: MainConf) {
    parseUri(spec.uri).Some? && AdjustRc(spec.methodCode, spec.vars, conf) == NgxOk
  }

  /**
    How submitting `specs` ends from entry `k` on: at the first entry that
    fails, with its reason; when there is none, the request yields.
  */
  function SubmitFrom(specs: seq<CaptureSpec>, parseUri: seq<char> -> Option<ParsedUri>, conf: MainConf,
                      k: nat): SubmitOutcome
    requires k <= |specs|
    decreases |specs| - k
  {
    if k == |specs| then Yielded
    else match EntryFailure(specs[k], parseUri, conf)
      case Some(why) => Failed(k, why)
      case None => SubmitFrom(specs, parseUri, conf, k + 1)
  }

  /** Why one entry stops the submission, if it does. */
  function EntryFailure(spec: CaptureSpec, parseUri: seq<char> -> Option<ParsedUri>, conf: MainConf): Option<Failure> {
    if parseUri(spec.uri).None? then Some(UnsafeUri)
    else if AdjustRc(spec.methodCode, spec.vars, conf) != NgxOk then
      Some(AdjustFailed(AdjustRc(spec.methodCode, spec.vars, conf)))
    else None
  }

  /**
    A submission yields exactly when every entry goes through; otherwise it
    fails at the first entry that does not, with that entry's reason.
  */
  lemma {:induction false} SubmitFromCases(specs: seq<CaptureSpec>, parseUri: seq<char> -> Option<ParsedUri>,
                                           conf: MainConf, k: nat)
    requires k <= |specs|
    ensures var o := SubmitFrom(specs, parseUri, conf, k);
      && (o.Yielded? || o.Failed?)
      && (o.Yielded? <==> forall i :: k <= i < |specs| ==> EntryAccepted(specs[i], parseUri, conf))
      && (o.Failed? ==>
            && k <= o.index < |specs| && !EntryAccepted(specs[o.index], parseUri, conf)
            && forall i :: k <= i < o.index ==> EntryAccepted(specs[i], parseUri, conf))
      && (o.Failed? && o.why.UnsafeUri? ==> parseUri(specs[o.index].uri).None?)
      && (o.Failed? && o.why.AdjustFailed? ==>
            && parseUri(specs[o.index].uri).Some?
            && o.why.rc == AdjustRc(specs[o.index].methodCode, specs[o.index].vars, conf) && o.why.rc != NgxOk)
    decreases |specs| - k
  {
    if k < |specs| && EntryAccepted(specs[k], parseUri, conf) {
      SubmitFromCases(specs, parseUri, conf, k + 1);
    }
  }

  /** Creates the subrequest of `r` for one entry and adjusts it to the entry's options. */
  method Issue(r: Request, parsed: ParsedUri, spec: CaptureSpec, conf: MainConf) returns (sr: Request, rc: int)
    requires conf.Valid() && r.variables.Length == conf.nvars
    modifies r.variables
    ensures fresh(sr) && Submitted(sr, r, spec, parsed)
    ensures rc == AdjustRc(spec.methodCode, spec.vars, conf)
    ensures MethodName(spec.methodCode).None? ==> sr.variables == r.variables && unchanged(r.variables)
    ensures MethodName(spec.methodCode).Some? ==>
      && (spec.shareAllVars ==> sr.variables == r.variables)
      && (!spec.shareAllVars ==> fresh(sr.variables) && unchanged(r.variables))
      && var start := InheritedVars(spec.shareAllVars, spec.copyAllVars, old(r.variables[..]),
                                    old(r.variables[..]), conf.nvars);
         var o := AddVars(start, [], spec.vars, conf);
         sr.variables[..] == o.values && sr.setCalls == o.calls
  {
    var args := JoinArgs(parsed.args, spec.extraArgs);
    sr := new Request.Subrequest(r, parsed.path, args);
    ghost var vars := r.variables[..];
    rc := sr.Adjust(spec.methodCode, spec.extraHeaders, spec.body, spec.shareAllVars,
                    spec.copyAllVars, spec.vars, conf);
    if MethodName(spec.methodCode).Some? {
      AddVarsRc(InheritedVars(spec.shareAllVars, spec.copyAllVars, vars, vars, conf.nvars), [], spec.vars, conf);
    }
  }

  /** The parent's side of the join: the counters and the three result arrays. */
  class JoinState {
    var waiting: int
    var done: bool
    var nsubreqs: nat
    var statuses: array<int>
    var headers: array<HeadersOut?>
    var bodies: array<Option<seq<char>>>
    /** Which slots' post handlers have run, mirroring the contexts' run flags. */
    ghost var finished: seq<bool>

    function Value(): JoinValue
      reads this, statuses, headers, bodies
    {
      JoinValue(waiting, done, statuses[..], headers[..], bodies[..])
    }

    function Repr(): set<object>
      reads this
    {
      {this, statuses, headers, bodies}
    }

    /** There is one slot per subrequest, in each array and in the ghost record. */
    ghost predicate Sized()
      reads this
    {
      && statuses.Length == nsubreqs && headers.Length == nsubreqs
      && bodies.Length == nsubreqs && |finished| == nsubreqs
    }

    /** The slots are sized and the join invariant holds. */
    ghost predicate Valid()
      reads this, statuses, headers, bodies
    {
      Sized() && JoinInvariant(finished, Value())
    }

    /** The parent-side writes of one finished subrequest before its body is captured. */
    method Record(i: nat, status: int, h: HeadersOut)
      requires Sized() && i < nsubreqs && !finished[i] && status != 0
      modifies this, statuses, headers
      ensures Sized() && finished == old(finished)[i := true]
      ensures old(Valid()) ==> Valid()
      ensures unchanged(this`nsubreqs)
      ensures statuses == old(statuses) && headers == old(headers) && bodies == old(bodies)
      ensures Value() == FinishCounters(old(Value()), i, status, h)
    {
      if Valid() {
        FinishKeepsInvariant(finished, Value(), i, status, h, None);
      }
      waiting := waiting - 1;
      if waiting == 0 {
        done := true;
      }
      statuses[i] := status;
      headers[i] := h;
      finished := finished[i := true];
    }

    /** Stores the captured body of the subrequest finished in slot `i`. */
    method StoreBody(i: nat, body: Option<seq<char>>)
      requires Sized() && i < nsubreqs
      modifies bodies
      ensures old(Valid()) && finished[i] && body != Some([]) ==> Valid()
      ensures Value() == old(Value()).(bodies := old(Value()).bodies[i := body])
    {
      bodies[i] := body;
    }

    /** The batch is done exactly when every subrequest's post handler has run. */
    lemma DoneIffAllFinished()
      requires Valid()
      ensures done <==> forall i :: 0 <= i < |finished| ==> finished[i]
    {
      CountPendingZero(finished);
    }

    /**
      Submits a batch on behalf of request `r`: sizes the arrays, then for
      each entry counts it as waiting, checks its URI, joins the query
      strings, creates the subrequest and adjusts it. The first failure
      ends the submission with the count already raised for that entry.
    */
    method CaptureMulti(r: Request, specs: seq<CaptureSpec>, parseUri: seq<char> -> Option<ParsedUri>,
                        conf: MainConf) returns (outcome: SubmitOutcome, ctxs: seq<SubrequestCtx>, subs: seq<Request>)
      requires conf.Valid() && r.variables.Length == conf.nvars
      modifies this, r.variables
      ensures |specs| == 0 ==> outcome == NoSubrequests && ctxs == [] && subs == [] && unchanged(this)
      ensures |specs| != 0 ==>
        && fresh(statuses) && fresh(headers) && fresh(bodies)
        && nsubreqs == |specs| && Value() == Pending(|specs|, waiting)
        && Sized() && finished == seq(|specs|, _ => false)
      ensures |specs| != 0 ==> outcome == SubmitFrom(specs, parseUri, conf, 0)
      ensures outcome.Yielded? <==> |specs| != 0 && forall i :: 0 <= i < |specs| ==> EntryAccepted(specs[i], parseUri, conf)
      ensures outcome.Yielded? ==> Valid() && waiting == |specs| && |subs| == |specs|
      ensures outcome.Failed? ==> outcome.index < |specs| && waiting == outcome.index + 1
      ensures outcome.Failed? ==> forall i :: 0 <= i < outcome.index ==> EntryAccepted(specs[i], parseUri, conf)
      ensures outcome.Failed? && outcome.why.UnsafeUri? ==>
        parseUri(specs[outcome.index].uri).None? && |subs| == outcome.index
      ensures outcome.Failed? && outcome.why.AdjustFailed? ==>
        && parseUri(specs[outcome.index].uri).Some?
        && outcome.why.rc == AdjustRc(specs[outcome.index].methodCode, specs[outcome.index].vars, conf)
        && outcome.why.rc != NgxOk && |subs| == outcome.index + 1
      ensures |subs| <= |specs| && |ctxs| == |subs|
      ensures fresh(ctxs) && Created(ctxs, subs, r, specs, parseUri)
    {
      var n := |specs|;
      if n == 0 {
        return NoSubrequests, [], [];
      }
      Reset(n);
      outcome, ctxs, subs := SubmitEach(r, specs, parseUri, conf);
      assert Value() == Pending(n, waiting);
      SubmitFromCases(specs, parseUri, conf, 0);
      if outcome.Yielded? {
        StartKeepsInvariant(n);
      }
    }

    /** Fresh arrays of `n` empty slots, with nothing counted, finished or done. */
    method Reset(n: nat)
      modifies this
      ensures fresh(statuses) && fresh(headers) && fresh(bodies)
      ensures nsubreqs == n && finished == seq(n, _ => false)
      ensures statuses.Length == n && headers.Length == n && bodies.Length == n
      ensures Value() == Pending(n, 0)
    {
      statuses := new int[n](_ => 0);
      headers := new HeadersOut?[n](_ => null);
      bodies := new Option<seq<char>>[n](_ => None);
      nsubreqs := n;
      done := false;
      waiting := 0;
      finished := seq(n, _ => false);
      assert Value() == Pending(n, 0);
    }

    /** The loop of `CaptureMulti` over the entries, from a zero count. */
    method SubmitEach(r: Request, specs: seq<CaptureSpec>, parseUri: seq<char> -> Option<ParsedUri>,
                      conf: MainConf) returns (outcome: SubmitOutcome, ctxs: seq<SubrequestCtx>, subs: seq<Request>)
      requires conf.Valid() && r.variables.Length == conf.nvars && waiting == 0
      modifies this`waiting, r.variables
      ensures outcome == SubmitFrom(specs, parseUri, conf, 0)
      ensures outcome.Yielded? ==> waiting == |specs| && |subs| == |specs|
      ensures outcome.Failed? ==> waiting == outcome.index + 1
      ensures outcome.Failed? && outcome.why.UnsafeUri? ==> |subs| == outcome.index
      ensures outcome.Failed? && outcome.why.AdjustFailed? ==> |subs| == outcome.index + 1
      ensures |subs| <= |specs| && |ctxs| == |subs|
      ensures fresh(ctxs)
      ensures Created(ctxs, subs, r, specs, parseUri)
    {
      ctxs, subs := [], [];
      outcome := Yielded;
      var index := 0;
      while index < |specs|
        invariant 0 <= index <= |specs| && waiting == index && |subs| == index
        invariant SubmitFrom(specs, parseUri, conf, 0) == SubmitFrom(specs, parseUri, conf, index)
        invariant r.variables.Length == conf.nvars
        invariant fresh(ctxs)
        invariant Created(ctxs, subs, r, specs, parseUri)
      {
        waiting := waiting + 1;
        var why;
        why, ctxs, subs := SubmitEntry(r, specs, parseUri, conf, index, ctxs, subs);
        if why.Some? {
          outcome := Failed(index, why.value);
          return;
        }
        index := index + 1;
      }
    }

    /** Slot `i` of `ctxs` is unstarted and belongs to entry `i`, whose subrequest is `subs[i]`. */
    ghost predicate Created(ctxs: seq<SubrequestCtx>, subs: seq<Request>, r: Request, specs: seq<CaptureSpec>,
                            parseUri: seq<char> -> Option<ParsedUri>)
      reads (set c | c in ctxs), (set s | s in subs), r
    {
      && |ctxs| == |subs| <= |specs|
      && (forall i :: 0 <= i < |ctxs| ==>
            ctxs[i].parent == this && ctxs[i].index == i && !ctxs[i].ran && ctxs[i].body == [])
      && (forall i :: 0 <= i < |subs| ==>
            parseUri(specs[i].uri).Some? && Submitted(subs[i], r, specs[i], parseUri(specs[i].uri).value))
    }

    /**
      One entry: the URI check, then the entry's context in slot `index`
      and its subrequest, unless the URI was refused.
    */
    method SubmitEntry(r: Request, specs: seq<CaptureSpec>, parseUri: seq<char> -> Option<ParsedUri>, conf: MainConf,
                       index: nat, ctxs0: seq<SubrequestCtx>, subs0: seq<Request>)
      returns (why: Option<Failure>, ctxs: seq<SubrequestCtx>, subs: seq<Request>)
      requires conf.Valid() && r.variables.Length == conf.nvars
      requires index < |specs| && |subs0| == index && Created(ctxs0, subs0, r, specs, parseUri)
      modifies r.variables
      ensures why == EntryFailure(specs[index], parseUri, conf)
      ensures why == Some(UnsafeUri) ==> ctxs == ctxs0 && subs == subs0
      ensures why != Some(UnsafeUri) ==>
        && |ctxs| == index + 1 && ctxs == ctxs0 + [ctxs[index]] && fresh(ctxs[index])
        && |subs| == index + 1
      ensures Created(ctxs, subs, r, specs, parseUri)
    {
      var spec := specs[index];
      var parsed := parseUri(spec.uri);
      if parsed.None? {
        return Some(UnsafeUri), ctxs0, subs0;
      }
      var ctx := new SubrequestCtx(this, index);
      var sr, rc := Issue(r, parsed.value, spec, conf);
      why := if rc != NgxOk then Some(AdjustFailed(rc)) else None;
      ctxs, subs := ctxs0 + [ctx], subs0 + [sr];
      CreatedExtends(ctxs0, subs0, ctx, sr, r, specs, parseUri);
    }

    /** Appending entry `|subs|`'s context and subrequest keeps the slots as created. */
    lemma CreatedExtends(ctxs: seq<SubrequestCtx>, subs: seq<Request>, ctx: SubrequestCtx, sr: Request, r: Request,
                         specs: seq<CaptureSpec>, parseUri: seq<char> -> Option<ParsedUri>)
      requires Created(ctxs, subs, r, specs, parseUri) && |subs| < |specs|
      requires ctx.parent == this && ctx.index == |ctxs| && !ctx.ran && ctx.body == []
      requires parseUri(specs[|subs|].uri).Some? && Submitted(sr, r, specs[|subs|], parseUri(specs[|subs|].uri).value)
      ensures Created(ctxs + [ctx], subs + [sr], r, specs, parseUri)
    {
    }

    /**
      Builds the script's result for every slot once the batch is done:
      each slot's status and body pass through, its headers are aggregated,
      and its response headers are left visited.
    */
    method HandleSubreqResponses(httpTime: int -> seq<char>) returns (results: seq<Capture>)
      requires Valid() && done
      requires forall i, j :: 0 <= i < j < headers.Length ==> headers[i] != headers[j]
      modifies set i | 0 <= i < headers.Length && headers[i] != null :: headers[i]
      ensures |results| == nsubreqs
      ensures forall i :: 0 <= i < nsubreqs ==> headers[i] != null
      ensures forall i :: 0 <= i < nsubreqs ==>
        && results[i] == AggregateSlot(statuses[i], bodies[i], old(headers[i].Value()), httpTime)
        && headers[i].Value() == AfterAggregation(old(headers[i].Value()))
    {
      AllHeadersPresent();
      results := AggregateEach(headers[..], statuses[..], bodies[..], httpTime);
    }

    /** Once the batch is done, every slot holds its subrequest's response headers. */
    lemma AllHeadersPresent()
      requires Valid() && done
      ensures forall i :: 0 <= i < headers.Length ==> headers[i] != null
    {
      DoneIffAllFinished();
      forall i | 0 <= i < headers.Length
        ensures headers[i] != null
      {
        assert finished[i];
        assert Value().headers[i] == headers[i];
      }
    }
  }

  /** The loop of `HandleSubreqResponses`: aggregates each slot's headers, in slot order. */
  method AggregateEach(hs: seq<HeadersOut?>, statuses: seq<int>, bodies: seq<Option<seq<char>>>,
                       httpTime: int -> seq<char>) returns (results: seq<Capture>)
    requires |statuses| == |hs| && |bodies| == |hs|
    requires forall i :: 0 <= i < |hs| ==> hs[i] != null
    requires forall i, j :: 0 <= i < j < |hs| ==> hs[i] != hs[j]
    modifies set h | h in hs && h != null
    ensures |results| == |hs|
    ensures forall i :: 0 <= i < |hs| ==>
      && results[i] == AggregateSlot(statuses[i], bodies[i], old(hs[i].Value()), httpTime)
      && hs[i].Value() == AfterAggregation(old(hs[i].Value()))
  {
    var index := 0;
    results := [];
    while index < |hs|
      invariant 0 <= index <= |hs| && |results| == index
      invariant forall i :: 0 <= i < index ==>
        && results[i] == AggregateSlot(statuses[i], bodies[i], old(hs[i].Value()), httpTime)
        && hs[i].Value() == AfterAggregation(old(hs[i].Value()))
      invariant forall i :: index <= i < |hs| ==> hs[i].Value() == old(hs[i].Value())
    {
      var c := hs[index].Aggregate(statuses[index], bodies[index], httpTime);
      results := results + [c];
      index := index + 1;
    }
  }
}
