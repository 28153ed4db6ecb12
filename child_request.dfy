/**
  Building a subrequest from its parent (`ngx_http_lua_adjust_subrequest`
  and the helpers it calls), plus the query-string join done while the
  batch is submitted.

  When the subrequest has a body, or when its method is neither PUT nor
  POST and the parent announced a positive Content-Length, the subrequest's
  request-header list is rebuilt: a synthesised Content-Length first, then
  the extra headers (less any named Content-Length), then the parent's
  headers. Otherwise the inherited list stays and extra headers are not
  applied. The parent-header copy keeps a duplicate unless the name already
  occurs in a part of the list other than its last one (parts hold 20
  elements), so on short lists it keeps every duplicate.

  Variables: "share all" keeps the parent's own array, "copy all" gives a
  snapshot of it, otherwise a zero-filled array; then each override is
  applied in turn and the first one that cannot be applied ends the run,
  leaving the earlier ones in place.
*/
module ChildRequest {
  import opened Ngx
  import opened Headers

  // ---------------------------------------------------------------- args

  /** The query string of a subrequest: the URI's own query joined to the `args` option. */
  function JoinArgs(args: seq<char>, extra: seq<char>): (r: seq<char>)
    ensures |args| == 0 ==> r == extra
    ensures |args| != 0 && |extra| == 0 ==> r == args
    ensures |args| != 0 && |extra| != 0 ==>
      |r| == |args| + 1 + |extra| && r[..|args|] == args && r[|args|] == '&' && r[|args| + 1..] == extra
  {
    if |args| == 0 then extra
    else if |extra| != 0 then args + ['&'] + extra
    else args
  }

  /** The '&'-separated fields of a query string (always at least one, possibly empty). */
  function Fields(s: seq<char>): (f: seq<seq<char>>)
    ensures |f| >= 1
    decreases |s|
  {
    if |s| == 0 then [[]]
    else if s[|s| - 1] == '&' then Fields(s[..|s| - 1]) + [[]]
    else
      var g := Fields(s[..|s| - 1]);
      g[..|g| - 1] + [g[|g| - 1] + [s[|s| - 1]]]
  }

  /** One more character: '&' opens a new field, anything else extends the last one. */
  lemma FieldsSnoc(s: seq<char>, c: char)
    ensures Fields(s + [c]) ==
      if c == '&' then Fields(s) + [[]]
      else var g := Fields(s); g[..|g| - 1] + [g[|g| - 1] + [c]]
  {
    assert (s + [c])[..|s|] == s;
  }

  /** Extending the last field commutes with a prefix of whole fields. */
  lemma ExtendLastField(fa: seq<seq<char>>, fe: seq<seq<char>>, c: char)
    requires |fe| >= 1
    ensures var g := fa + fe;
      g[..|g| - 1] + [g[|g| - 1] + [c]] == fa + (fe[..|fe| - 1] + [fe[|fe| - 1] + [c]])
  {
    var g := fa + fe;
    assert g[..|g| - 1] == fa + fe[..|fe| - 1];
  }

  lemma {:induction false} FieldsOfJoin(a: seq<char>, e: seq<char>)
    ensures Fields(a + ['&'] + e) == Fields(a) + Fields(e)
    decreases |e|
  {
    if |e| == 0 {
      FieldsSnoc(a, '&');
      assert a + ['&'] + e == a + ['&'];
    } else {
      var e', c := e[..|e| - 1], e[|e| - 1];
      var s' := a + ['&'] + e';
      assert e == e' + [c];
      assert a + ['&'] + e == s' + [c];
      FieldsOfJoin(a, e');
      FieldsSnoc(s', c);
      FieldsSnoc(e', c);
      if c != '&' {
        ExtendLastField(Fields(a), Fields(e'), c);
      }
    }
  }

  /**
    Joining both non-empty parts keeps every query field of each: the fields
    of the result are the URI's fields followed by the option's fields.
  */
  lemma JoinArgsKeepsFields(args: seq<char>, extra: seq<char>)
    requires |args| != 0 && |extra| != 0
    ensures Fields(JoinArgs(args, extra)) == Fields(args) + Fields(extra)
  {
    FieldsOfJoin(args, extra);
  }

  // ------------------------------------------------------------- methods

  /** The request-line name of a supported method; `None` for any other code. */
  function MethodName(m: nat): (r: Option<seq<char>>)
    ensures r.Some? <==> m in {HttpGet, HttpPost, HttpPut, HttpHead, HttpDelete, HttpOptions}
  {
    if m == HttpGet then Some("GET")
    else if m == HttpPost then Some("POST")
    else if m == HttpPut then Some("PUT")
    else if m == HttpHead then Some("HEAD")
    else if m == HttpDelete then Some("DELETE")
    else if m == HttpOptions then Some("OPTIONS")
    else None
  }

  /** The method code a name stands for: the inverse of `MethodName`. */
  function MethodCode(name: seq<char>): (r: Option<nat>)
    ensures r.Some? <==> name in {"GET", "POST", "PUT", "HEAD", "DELETE", "OPTIONS"}
  {
    if name == "GET" then Some(HttpGet)
    else if name == "POST" then Some(HttpPost)
    else if name == "PUT" then Some(HttpPut)
    else if name == "HEAD" then Some(HttpHead)
    else if name == "DELETE" then Some(HttpDelete)
    else if name == "OPTIONS" then Some(HttpOptions)
    else None
  }

  /** Each supported method and its name determine each other. */
  lemma MethodNameRoundTrip(m: nat, name: seq<char>)
    ensures MethodName(m) == Some(name) <==> MethodCode(name) == Some(m)
  {
  }

  // ----------------------------------------------------- request headers

  /** The header the rebuild puts first: Content-Length with the body length in decimal. */
  function ContentLengthElt(len: nat): TableElt {
    TableElt(LiveHash, "Content-Length", Decimal(len), Lower("Content-Length"))
  }

  predicate IsContentLengthName(key: seq<char>) {
    SameNameIgnoringCase("Content-Length", key)
  }

  /** The list element made for one extra header. */
  function ExtraElt(kv: KeyVal): TableElt {
    TableElt(LiveHash, kv.key, kv.value, Lower(kv.key))
  }

  /** The elements the extra-header loop appends, in input order. */
  function ExtraElts(extra: seq<KeyVal>): seq<TableElt>
    decreases |extra|
  {
    if extra == [] then []
    else
      var kv := extra[|extra| - 1];
      ExtraElts(extra[..|extra| - 1]) + (if IsContentLengthName(kv.key) then [] else [ExtraElt(kv)])
  }

  /**
    An element comes out of the extra-header loop exactly when it is built
    from an extra header not named Content-Length (in any case); so every
    such element is live, its lowercase key is its lower-cased key, and none
    is named Content-Length.
  */
  lemma {:induction false} ExtraEltsMembers(extra: seq<KeyVal>, e: TableElt)
    ensures e in ExtraElts(extra) <==>
      exists kv :: kv in extra && !IsContentLengthName(kv.key) && e == ExtraElt(kv)
    ensures e in ExtraElts(extra) ==>
      e.hash != 0 && e.lowcaseKey == Lower(e.key) && !IsContentLengthName(e.key)
    decreases |extra|
  {
    if extra != [] {
      var init := extra[..|extra| - 1];
      var kv := extra[|extra| - 1];
      ExtraEltsMembers(init, e);
      assert extra == init + [kv];
      if e in ExtraElts(extra) && e !in ExtraElts(init) {
        assert kv in extra && !IsContentLengthName(kv.key) && e == ExtraElt(kv);
      }
    }
  }

  /** Elements per part of the rebuilt request-header list. */
  const HeaderListPartSize: nat := 20

  /** The part that holds the last element of a list of `n` elements. */
  function LastPart(n: nat): nat {
    if n == 0 then 0 else (n - 1) / HeaderListPartSize
  }

  /**
    The test the parent-header copy applies: the first element whose name
    matches lies in a part other than the last one. Only then is the
    parent's header left out.
  */
  predicate ShadowedAsWritten(list: seq<TableElt>, name: seq<char>) {
    exists j :: 0 <= j < |list| && j / HeaderListPartSize < LastPart(|list|)
                && SameNameIgnoringCase(name, list[j].key)
  }

  /** The list the parent-header copy produces, header by header. */
  function CopyAsWritten(list: seq<TableElt>, parentHeaders: seq<TableElt>): (r: seq<TableElt>)
    ensures |list| <= |r| <= |list| + |parentHeaders|
    ensures r[..|list|] == list
    decreases |parentHeaders|
  {
    if parentHeaders == [] then list
    else
      var next := if ShadowedAsWritten(list, parentHeaders[0].key) then list else list + [parentHeaders[0]];
      CopyAsWritten(next, parentHeaders[1..])
  }

  /** While the list fits in one part, every parent header is copied, duplicates included. */
  lemma {:induction false} CopyAsWrittenSmallLists(list: seq<TableElt>, parentHeaders: seq<TableElt>)
    requires |list| + |parentHeaders| <= HeaderListPartSize
    ensures CopyAsWritten(list, parentHeaders) == list + parentHeaders
    decreases |parentHeaders|
  {
    if parentHeaders != [] {
      var h, rest := parentHeaders[0], parentHeaders[1..];
      FirstPartShadowsNothing(list, h.key);
      assert CopyAsWritten(list, parentHeaders) == CopyAsWritten(list + [h], rest);
      CopyAsWrittenSmallLists(list + [h], rest);
      assert list + [h] + rest == list + parentHeaders;
    }
  }

  /** A list that fits in one part shadows no name. */
  lemma FirstPartShadowsNothing(list: seq<TableElt>, name: seq<char>)
    requires |list| <= HeaderListPartSize
    ensures !ShadowedAsWritten(list, name)
  {
    assert LastPart(|list|) == 0;
  }

  /** The request-header list after a rebuild. */
  function RebuiltHeaders(len: nat, extra: seq<KeyVal>, parentHeaders: seq<TableElt>): seq<TableElt> {
    CopyAsWritten([ContentLengthElt(len)] + ExtraElts(extra), parentHeaders)
  }

  /**
    The rebuilt list starts with Content-Length, whose value reads back as
    the body length, then holds the extra headers in order; when the whole
    list fits in one part the parent's headers follow unchanged.
  */
  lemma RebuiltHeadersLayout(len: nat, extra: seq<KeyVal>, parentHeaders: seq<TableElt>)
    ensures var r := RebuiltHeaders(len, extra, parentHeaders);
            var n := 1 + |ExtraElts(extra)|;
      && |r| >= n
      && r[0] == ContentLengthElt(len)
      && r[0].key == "Content-Length" && r[0].lowcaseKey == "content-length"
      && AllDigits(r[0].value) && ParseDecimal(r[0].value) == len
      && r[1..n] == ExtraElts(extra)
      && (n + |parentHeaders| <= HeaderListPartSize ==> r[n..] == parentHeaders)
  {
    var list := [ContentLengthElt(len)] + ExtraElts(extra);
    var r := RebuiltHeaders(len, extra, parentHeaders);
    assert r[..|list|] == list;
    assert r[0] == list[0];
    assert r[1..|list|] == list[1..];
    DecimalRoundTrip(len);
    if |list| + |parentHeaders| <= HeaderListPartSize {
      CopyAsWrittenSmallLists(list, parentHeaders);
    }
  }

  /**
    A parent Content-Length header survives next to the synthesised one
    when the rebuilt list fits in one part: the list then names
    Content-Length twice.
  */
  lemma RebuiltHeadersKeepParentContentLength(len: nat, extra: seq<KeyVal>, parentHeaders: seq<TableElt>, p: nat)
    requires 1 + |ExtraElts(extra)| + |parentHeaders| <= HeaderListPartSize
    requires p < |parentHeaders| && IsContentLengthName(parentHeaders[p].key)
    ensures var r := RebuiltHeaders(len, extra, parentHeaders);
      exists i, j :: 0 <= i < j < |r| && IsContentLengthName(r[i].key) && IsContentLengthName(r[j].key)
  {
    RebuiltHeadersLayout(len, extra, parentHeaders);
    var r := RebuiltHeaders(len, extra, parentHeaders);
    var n := 1 + |ExtraElts(extra)|;
    assert r[n + p] == parentHeaders[p];
    assert IsContentLengthName(r[0].key);
  }

  // ------------------------------------------------------------ variables

  /** A registered variable, as the server's variable hash records it. */
  datatype VarDef = VarDef(changeable: bool, indexed: bool, hasSetHandler: bool, index: nat)

  /** One slot of a request's variable array. */
  datatype VarValue = VarValue(valid: bool, notFound: bool, noCacheable: bool, data: seq<char>)

  const ZeroVar: VarValue := VarValue(false, false, false, [])

  /** The server-wide variable registry (keyed by the names as registered) and the number of indexed slots. */
  datatype MainConf = MainConf(variables: map<seq<char>, VarDef>, nvars: nat) {
    predicate Valid() {
      forall name | name in variables :: variables[name].indexed ==> variables[name].index < nvars
    }
  }

  /** A call made to a variable's set handler, with the lower-cased name and the value. */
  datatype SetCall = SetCall(name: seq<char>, value: seq<char>)

  datatype VarAction = AssignIndexed(index: nat) | CallSetHandler | Reject(code: int)

  /** What one override does, looked up under its lower-cased name. */
  function Classify(kv: KeyVal, conf: MainConf): VarAction {
    var name := Lower(kv.key);
    if name in conf.variables then
      var v := conf.variables[name];
      if !v.changeable then Reject(HttpInternalServerError)
      else if v.hasSetHandler then CallSetHandler
      else if v.indexed then AssignIndexed(v.index)
      else Reject(NgxError)
    else Reject(NgxError)
  }

  /**
    A read-only variable is refused with 500; an unknown one, or one that
    has neither a set handler nor an index, with the generic error.
  */
  lemma ClassifyRejections(kv: KeyVal, conf: MainConf)
    ensures var name := Lower(kv.key);
            var a := Classify(kv, conf);
      && (a == Reject(HttpInternalServerError) <==> name in conf.variables && !conf.variables[name].changeable)
      && (a == Reject(NgxError) <==>
            name !in conf.variables
            || (conf.variables[name].changeable && !conf.variables[name].hasSetHandler
                && !conf.variables[name].indexed))
  {
  }

  /** The value an indexed variable receives from an override. */
  function AssignedValue(value: seq<char>): VarValue {
    VarValue(true, false, false, value)
  }

  datatype VarsOutcome = VarsOutcome(values: seq<VarValue>, calls: seq<SetCall>, rc: int)

  /** Applying the overrides in order, stopping at the first that cannot be applied. */
  function AddVars(values: seq<VarValue>, calls: seq<SetCall>, extra: seq<KeyVal>, conf: MainConf): (o: VarsOutcome)
    requires conf.Valid() && |values| == conf.nvars
    ensures |o.values| == |values|
    decreases |extra|
  {
    if extra == [] then VarsOutcome(values, calls, NgxOk)
    else match Classify(extra[0], conf)
      case Reject(code) => VarsOutcome(values, calls, code)
      case CallSetHandler =>
        AddVars(values, calls + [SetCall(Lower(extra[0].key), extra[0].value)], extra[1..], conf)
      case AssignIndexed(ix) =>
        AddVars(values[ix := AssignedValue(extra[0].value)], calls, extra[1..], conf)
  }

  /** The overrides all apply exactly when none of them is refused. */
  lemma {:induction false} AddVarsSucceedsIff(values: seq<VarValue>, calls: seq<SetCall>, extra: seq<KeyVal>, conf: MainConf)
    requires conf.Valid() && |values| == conf.nvars
    ensures AddVars(values, calls, extra, conf).rc == NgxOk <==>
            forall i :: 0 <= i < |extra| ==> !Classify(extra[i], conf).Reject?
    decreases |extra|
  {
    if extra != [] {
      match Classify(extra[0], conf)
      case Reject(code) =>
        ClassifyRejections(extra[0], conf);
      case CallSetHandler =>
        AddVarsSucceedsIff(values, calls + [SetCall(Lower(extra[0].key), extra[0].value)], extra[1..], conf);
        assert forall i :: 1 <= i < |extra| ==> extra[i] == extra[1..][i - 1];
      case AssignIndexed(ix) =>
        AddVarsSucceedsIff(values[ix := AssignedValue(extra[0].value)], calls, extra[1..], conf);
        assert forall i :: 1 <= i < |extra| ==> extra[i] == extra[1..][i - 1];
    }
  }

  /**
    At the first refused override the run ends with that override's code,
    and every earlier override stays applied.
  */
  lemma {:induction false} AddVarsStopsAtFirstRejection(values: seq<VarValue>, calls: seq<SetCall>,
                                                        extra: seq<KeyVal>, conf: MainConf, k: nat)
    requires conf.Valid() && |values| == conf.nvars
    requires k < |extra| && Classify(extra[k], conf).Reject?
    requires forall i :: 0 <= i < k ==> !Classify(extra[i], conf).Reject?
    ensures var o := AddVars(values, calls, extra, conf);
            var before := AddVars(values, calls, extra[..k], conf);
      && o.rc == Classify(extra[k], conf).code
      && o.values == before.values
      && o.calls == before.calls
    decreases k
  {
    if k == 0 {
    } else {
      assert extra[..k][0] == extra[0];
      assert extra[..k][1..] == extra[1..][..k - 1];
      assert forall i :: 0 <= i < k - 1 ==> extra[1..][i] == extra[i + 1];
      match Classify(extra[0], conf)
      case CallSetHandler =>
        AddVarsStopsAtFirstRejection(values, calls + [SetCall(Lower(extra[0].key), extra[0].value)],
                                     extra[1..], conf, k - 1);
      case AssignIndexed(ix) =>
        AddVarsStopsAtFirstRejection(values[ix := AssignedValue(extra[0].value)], calls,
                                     extra[1..], conf, k - 1);
    }
  }

  /** Only slots named by an applied override change; every other slot keeps its value. */
  lemma {:induction false} AddVarsTouchesOnlyAssignedSlots(values: seq<VarValue>, calls: seq<SetCall>,
                                                           extra: seq<KeyVal>, conf: MainConf, ix: nat)
    requires conf.Valid() && |values| == conf.nvars && ix < |values|
    requires forall i :: 0 <= i < |extra| ==> Classify(extra[i], conf) != AssignIndexed(ix)
    ensures AddVars(values, calls, extra, conf).values[ix] == values[ix]
    decreases |extra|
  {
    if extra != [] {
      assert forall i :: 0 <= i < |extra| - 1 ==> extra[1..][i] == extra[i + 1];
      match Classify(extra[0], conf)
      case Reject(_) =>
      case CallSetHandler =>
        AddVarsTouchesOnlyAssignedSlots(values, calls + [SetCall(Lower(extra[0].key), extra[0].value)],
                                        extra[1..], conf, ix);
      case AssignIndexed(j) =>
        AddVarsTouchesOnlyAssignedSlots(values[j := AssignedValue(extra[0].value)], calls,
                                        extra[1..], conf, ix);
    }
  }

  /**
    When every override is accepted, a slot ends with the value of the
    last override that assigns it.
  */
  lemma {:induction false} AddVarsLastAssignmentWins(values: seq<VarValue>, calls: seq<SetCall>,
                                                     extra: seq<KeyVal>, conf: MainConf, k: nat)
    requires conf.Valid() && |values| == conf.nvars
    requires forall i :: 0 <= i < |extra| ==> !Classify(extra[i], conf).Reject?
    requires k < |extra| && Classify(extra[k], conf).AssignIndexed?
    requires forall i :: k < i < |extra| ==> Classify(extra[i], conf) != Classify(extra[k], conf)
    ensures Classify(extra[k], conf).index < |values|
    ensures AddVars(values, calls, extra, conf).values[Classify(extra[k], conf).index] == AssignedValue(extra[k].value)
    decreases k
  {
    var ix := Classify(extra[k], conf).index;
    assert forall i :: 0 <= i < |extra| - 1 ==> extra[1..][i] == extra[i + 1];
    if k == 0 {
      AddVarsTouchesOnlyAssignedSlots(values[ix := AssignedValue(extra[0].value)], calls, extra[1..], conf, ix);
    } else {
      match Classify(extra[0], conf)
      case CallSetHandler =>
        AddVarsLastAssignmentWins(values, calls + [SetCall(Lower(extra[0].key), extra[0].value)],
                                  extra[1..], conf, k - 1);
      case AssignIndexed(j) =>
        AddVarsLastAssignmentWins(values[j := AssignedValue(extra[0].value)], calls, extra[1..], conf, k - 1);
    }
  }

  /** The set-handler calls the overrides ask for, in order, under the lower-cased names. */
  function HandlerCalls(extra: seq<KeyVal>, conf: MainConf): seq<SetCall>
    decreases |extra|
  {
    if extra == [] then []
    else if Classify(extra[0], conf).CallSetHandler? then
      [SetCall(Lower(extra[0].key), extra[0].value)] + HandlerCalls(extra[1..], conf)
    else HandlerCalls(extra[1..], conf)
  }

  /** When every override is accepted, each set-handler override is called once, in order, after the earlier calls. */
  lemma {:induction false} AddVarsCallsInOrder(values: seq<VarValue>, calls: seq<SetCall>,
                                               extra: seq<KeyVal>, conf: MainConf)
    requires conf.Valid() && |values| == conf.nvars
    requires forall i :: 0 <= i < |extra| ==> !Classify(extra[i], conf).Reject?
    ensures AddVars(values, calls, extra, conf).calls == calls + HandlerCalls(extra, conf)
    decreases |extra|
  {
    if extra != [] {
      assert forall i :: 0 <= i < |extra| - 1 ==> extra[1..][i] == extra[i + 1];
      match Classify(extra[0], conf)
      case CallSetHandler =>
        var c := SetCall(Lower(extra[0].key), extra[0].value);
        AddVarsCallsInOrder(values, calls + [c], extra[1..], conf);
        assert calls + [c] + HandlerCalls(extra[1..], conf) == calls + ([c] + HandlerCalls(extra[1..], conf));
      case AssignIndexed(j) =>
        AddVarsCallsInOrder(values[j := AssignedValue(extra[0].value)], calls, extra[1..], conf);
    }
  }

  /** The code a run of overrides ends with: the first refused override's code, or NGX_OK. */
  function OverridesRc(extra: seq<KeyVal>, conf: MainConf): (rc: int)
    ensures rc == NgxOk <==> forall i :: 0 <= i < |extra| ==> !Classify(extra[i], conf).Reject?
    decreases |extra|
  {
    if extra == [] then NgxOk
    else
      var rest := OverridesRc(extra[1..], conf);
      assert forall i :: 1 <= i < |extra| ==> extra[i] == extra[1..][i - 1];
      match Classify(extra[0], conf)
      case Reject(code) => code
      case _ => rest
  }

  /** The code of a run of overrides depends only on the overrides, not on the array or the calls so far. */
  lemma {:induction false} AddVarsRc(values: seq<VarValue>, calls: seq<SetCall>, extra: seq<KeyVal>, conf: MainConf)
    requires conf.Valid() && |values| == conf.nvars
    ensures AddVars(values, calls, extra, conf).rc == OverridesRc(extra, conf)
    decreases |extra|
  {
    if extra != [] {
      match Classify(extra[0], conf)
      case Reject(_) =>
      case CallSetHandler =>
        AddVarsRc(values, calls + [SetCall(Lower(extra[0].key), extra[0].value)], extra[1..], conf);
      case AssignIndexed(j) =>
        AddVarsRc(values[j := AssignedValue(extra[0].value)], calls, extra[1..], conf);
    }
  }

  /** The code an adjustment returns: NGX_ERROR for an unsupported method, else the overrides' code. */
  function AdjustRc(m: nat, extra: seq<KeyVal>, conf: MainConf): int {
    if MethodName(m).None? then NgxError else OverridesRc(extra, conf)
  }

  /** An adjustment succeeds exactly when the method is supported and no override is refused. */
  lemma AdjustRcOk(m: nat, extra: seq<KeyVal>, conf: MainConf)
    ensures AdjustRc(m, extra, conf) == NgxOk <==>
      MethodName(m).Some? && forall i :: 0 <= i < |extra| ==> !Classify(extra[i], conf).Reject?
  {
  }

  /** The variable array a subrequest starts from under each inheritance policy. */
  function InheritedVars(share: bool, copy: bool, own: seq<VarValue>, parentVars: seq<VarValue>, n: nat): seq<VarValue> {
    if share then own
    else if copy then parentVars
    else seq(n, _ => ZeroVar)
  }

  /** Whether the subrequest's request headers are rebuilt. */
  predicate RebuildsHeaders(m: nat, body: Option<seq<char>>, parentContentLengthN: int) {
    body.Some? || (m != HttpPut && m != HttpPost && parentContentLengthN > 0)
  }

  // -------------------------------------------------------------- requests

  /** The parts of an nginx request that subrequest construction reads or writes. */
  class Request {
    const parent: Request?
    const headersOut: HeadersOut
    var uri: seq<char>
    var args: seq<char>
    var headersIn: seq<TableElt>
    var contentLengthN: int
    var contentLength: Option<TableElt>
    var requestBody: Option<seq<char>>
    var methodCode: nat
    var methodName: seq<char>
    var variables: array<VarValue>
    var setCalls: seq<SetCall>

    /**
      A subrequest as the server creates it: it inherits the parent's request
      headers, body and variable array (the array itself, not a copy).
    */
    constructor Subrequest(pr: Request, uri: seq<char>, args: seq<char>)
      ensures parent == pr && fresh(headersOut)
      ensures this.uri == uri && this.args == args
      ensures headersIn == pr.headersIn && contentLengthN == pr.contentLengthN
      ensures contentLength == pr.contentLength && requestBody == pr.requestBody
      ensures variables == pr.variables
      ensures methodCode == HttpGet && methodName == "GET" && setCalls == []
    {
      parent := pr;
      headersOut := new HeadersOut();
      this.uri, this.args := uri, args;
      headersIn, contentLengthN := pr.headersIn, pr.contentLengthN;
      contentLength, requestBody := pr.contentLength, pr.requestBody;
      variables := pr.variables;
      methodCode, methodName, setCalls := HttpGet, "GET", [];
    }

    /** Appends the synthesised Content-Length header and records it as the request's length. */
    method SetContentLengthHeader(len: nat)
      modifies this`headersIn, this`contentLengthN, this`contentLength
      ensures headersIn == old(headersIn) + [ContentLengthElt(len)]
      ensures contentLengthN == len && contentLength == Some(ContentLengthElt(len))
    {
      contentLengthN := len;
      var key := "Content-Length";
      var h := TableElt(LiveHash, key, Decimal(len), Lower(key));
      headersIn := headersIn + [h];
      contentLength := Some(h);
    }

    /** Appends every extra header not named Content-Length, in order. */
    method SetExtraHeaders(extra: seq<KeyVal>)
      modifies this`headersIn
      ensures headersIn == old(headersIn) + ExtraElts(extra)
    {
      var i := 0;
      while i < |extra|
        invariant 0 <= i <= |extra|
        invariant headersIn == old(headersIn) + ExtraElts(extra[..i])
      {
        assert extra[..i + 1][..i] == extra[..i];
        var kv := extra[i];
        if !IsContentLengthName(kv.key) {
          headersIn := headersIn + [TableElt(LiveHash, kv.key, kv.value, Lower(kv.key))];
        }
        i := i + 1;
      }
      assert extra[..i] == extra;
    }

    /** Appends the parent's request headers, applying the as-written duplicate test to each. */
    method CopyParentHeaders()
      requires parent != this
      modifies this`headersIn
      ensures headersIn == if parent == null then old(headersIn) else CopyAsWritten(old(headersIn), parent.headersIn)
    {
      if parent == null {
        return;
      }
      var pr := parent.headersIn;
      var i := 0;
      while i < |pr|
        invariant 0 <= i <= |pr|
        invariant CopyAsWritten(headersIn, pr[i..]) == CopyAsWritten(old(headersIn), pr)
      {
        var name := pr[i].key;
        var j := FirstMatch(headersIn, name);
        // the scan stopped in a part that has a successor
        var stoppedEarly := j < |headersIn| && j / HeaderListPartSize < LastPart(|headersIn|);
        ShadowedIffStoppedEarly(headersIn, name, j);
        assert pr[i..][1..] == pr[i + 1..];
        if !stoppedEarly {
          headersIn := headersIn + [pr[i]];
        }
        i := i + 1;
      }
    }

    /** Rebuilds the request-header list: Content-Length, the extra headers, the parent's headers. */
    method SetHeaders(len: nat, extra: seq<KeyVal>)
      requires parent != this
      modifies this`headersIn, this`contentLengthN, this`contentLength
      ensures headersIn == RebuiltHeaders(len, extra, if parent == null then [] else parent.headersIn)
      ensures contentLengthN == len && contentLength == Some(ContentLengthElt(len))
    {
      headersIn := [];
      SetContentLengthHeader(len);
      assert headersIn == [ContentLengthElt(len)];
      SetExtraHeaders(extra);
      assert headersIn == [ContentLengthElt(len)] + ExtraElts(extra);
      CopyParentHeaders();
    }

    /** Applies the variable overrides to the request's variable array, in order. */
    method AddExtraVars(extra: seq<KeyVal>, conf: MainConf) returns (rc: int)
      requires conf.Valid() && variables.Length == conf.nvars
      modifies variables, this`setCalls
      ensures var o := AddVars(old(variables[..]), old(setCalls), extra, conf);
        variables[..] == o.values && setCalls == o.calls && rc == o.rc
    {
      ghost var goal := AddVars(variables[..], setCalls, extra, conf);
      var i := 0;
      while i < |extra|
        invariant 0 <= i <= |extra|
        invariant AddVars(variables[..], setCalls, extra[i..], conf) == goal
      {
        assert extra[i..][1..] == extra[i + 1..];
        var kv := extra[i];
        var name := Lower(kv.key);
        if name in conf.variables {
          var v := conf.variables[name];
          if !v.changeable {
            return HttpInternalServerError;
          }
          if v.hasSetHandler {
            setCalls := setCalls + [SetCall(name, kv.value)];
            i := i + 1;
            continue;
          }
          if v.indexed {
            variables[v.index] := AssignedValue(kv.value);
            i := i + 1;
            continue;
          }
        }
        return NgxError;
      }
      return NgxOk;
    }

    /**
      The body step: with a body, or for a method other than PUT and POST
      under a parent that announced a positive length, the request headers
      are rebuilt (in the second case without a body); otherwise nothing
      changes.
    */
    method ApplyBody(m: nat, extraHeaders: seq<KeyVal>, body: Option<seq<char>>)
      requires parent != null && parent != this
      modifies this`headersIn, this`contentLengthN, this`contentLength, this`requestBody
      ensures RebuildsHeaders(m, body, parent.contentLengthN) ==>
        var len := if body.Some? then |body.value| else 0;
        && headersIn == RebuiltHeaders(len, extraHeaders, parent.headersIn)
        && contentLengthN == len && contentLength == Some(ContentLengthElt(len))
        && requestBody == (if body.Some? then body else None)
      ensures !RebuildsHeaders(m, body, parent.contentLengthN) ==>
        && headersIn == old(headersIn) && contentLengthN == old(contentLengthN)
        && contentLength == old(contentLength) && requestBody == old(requestBody)
    {
      if body.Some? {
        requestBody := body;
        SetHeaders(|body.value|, extraHeaders);
      } else if m != HttpPut && m != HttpPost && parent.contentLengthN > 0 {
        SetHeaders(0, extraHeaders);
        requestBody := None;
      }
    }

    /**
      The variable step: unless "share all" is asked for, the request gets a
      new array, a snapshot of the parent's under "copy all" and zero-filled
      otherwise; then the overrides are applied to it.
    */
    method ApplyVars(share: bool, copy: bool, extraVars: seq<KeyVal>, conf: MainConf) returns (rc: int)
      requires parent != null
      requires conf.Valid() && variables.Length == conf.nvars && parent.variables.Length == conf.nvars
      modifies this`variables, this`setCalls, variables
      ensures share ==> variables == old(variables)
      ensures !share ==> fresh(variables) && unchanged(old(variables))
      ensures variables.Length == conf.nvars
      ensures var start := InheritedVars(share, copy, old(variables[..]), old(parent.variables[..]), conf.nvars);
              var o := AddVars(start, old(setCalls), extraVars, conf);
        variables[..] == o.values && setCalls == o.calls && rc == o.rc
    {
      if !share {
        var n := conf.nvars;
        if copy {
          var pv := parent.variables;
          variables := new VarValue[n](i requires 0 <= i < n && i < pv.Length reads pv => pv[i]);
          assert variables[..] == pv[..];
        } else {
          variables := new VarValue[n](_ => ZeroVar);
          assert variables[..] == seq(n, _ => ZeroVar);
        }
      }
      rc := AddExtraVars(extraVars, conf);
    }

    /**
      Turns a freshly created subrequest into the one the options ask for:
      header rebuild, method, variable policy and overrides. An unsupported
      method fails after the headers were rebuilt and the method code set.
    */
    method Adjust(m: nat, extraHeaders: seq<KeyVal>, body: Option<seq<char>>,
                  share: bool, copy: bool, extraVars: seq<KeyVal>, conf: MainConf) returns (rc: int)
      requires parent != null && parent != this
      requires conf.Valid() && variables.Length == conf.nvars && parent.variables.Length == conf.nvars
      modifies this, variables
      ensures uri == old(uri) && args == old(args) && methodCode == m
      ensures RebuildsHeaders(m, body, parent.contentLengthN) ==>
        var len := if body.Some? then |body.value| else 0;
        && headersIn == RebuiltHeaders(len, extraHeaders, parent.headersIn)
        && contentLengthN == len && contentLength == Some(ContentLengthElt(len))
        && requestBody == (if body.Some? then body else None)
      ensures !RebuildsHeaders(m, body, parent.contentLengthN) ==>
        && headersIn == old(headersIn) && contentLengthN == old(contentLengthN)
        && contentLength == old(contentLength) && requestBody == old(requestBody)
      ensures MethodName(m).None? ==>
        && rc == NgxError && methodName == old(methodName)
        && variables == old(variables) && unchanged(variables) && setCalls == old(setCalls)
      ensures MethodName(m).Some? ==>
        && methodName == MethodName(m).value
        && (share ==> variables == old(variables))
        && (!share ==> fresh(variables) && unchanged(old(variables)))
        && variables.Length == conf.nvars
        && var start := InheritedVars(share, copy, old(variables[..]), old(parent.variables[..]), conf.nvars);
           var o := AddVars(start, old(setCalls), extraVars, conf);
           variables[..] == o.values && setCalls == o.calls && rc == o.rc
    {
      ApplyBody(m, extraHeaders, body);
      methodCode := m;
      var name := MethodName(m);
      if name.None? {
        return NgxError;
      }
      methodName := name.value;
      rc := ApplyVars(share, copy, extraVars, conf);
    }
  }

  /** The index of the first element named `name`, ignoring case, or `|list|` when there is none. */
  method FirstMatch(list: seq<TableElt>, name: seq<char>) returns (j: nat)
    ensures j <= |list|
    ensures forall k :: 0 <= k < j ==> !SameNameIgnoringCase(name, list[k].key)
    ensures j < |list| ==> SameNameIgnoringCase(name, list[j].key)
  {
    j := 0;
    while j < |list| && !SameNameIgnoringCase(name, list[j].key)
      invariant j <= |list|
      invariant forall k :: 0 <= k < j ==> !SameNameIgnoringCase(name, list[k].key)
    {
      j := j + 1;
    }
  }

  /** The scan's stopping point decides the as-written duplicate test. */
  lemma ShadowedIffStoppedEarly(list: seq<TableElt>, name: seq<char>, j: nat)
    requires j <= |list|
    requires forall k :: 0 <= k < j ==> !SameNameIgnoringCase(name, list[k].key)
    requires j < |list| ==> SameNameIgnoringCase(name, list[j].key)
    ensures ShadowedAsWritten(list, name) <==>
            j < |list| && j / HeaderListPartSize < LastPart(|list|)
  {
    if ShadowedAsWritten(list, name) {
      var w :| 0 <= w < |list| && w / HeaderListPartSize < LastPart(|list|)
               && SameNameIgnoringCase(name, list[w].key);
      assert j <= w;
      DivisionIsMonotonic(j, w);
    }
  }

  lemma DivisionIsMonotonic(a: nat, b: nat)
    requires a <= b
    ensures a / HeaderListPartSize <= b / HeaderListPartSize
  {
  }
}
