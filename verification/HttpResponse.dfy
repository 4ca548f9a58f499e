/** Answering an HTTP request: from its query commands to headers, status and body. */
module HttpResponse {
  import opened Strings
  import opened Commands
  import opened RandomBytes
  import opened BodyWriters

  // ---- the stored headers ----

  /** The headers that earlier requests asked to be added to every response, by lower-case name. */
  class HeaderMap {
    var m: map<string, string>

    constructor ()
      ensures m == map[]
    {
      m := map[];
    }

    method Add(key: string, value: string)
      modifies this
      ensures m == old(m)[ToLower(key) := value]
    {
      m := m[ToLower(key) := value];
    }

    method Delete(key: string)
      modifies this
      ensures m == old(m) - {ToLower(key)}
    {
      if ToLower(key) in m {
        m := m - {ToLower(key)};
      }
    }
  }

  predicate IsNameChar(c: char) {
    IsDigit(c) || IsUpper(c) || 'a' <= c <= 'z' || c == '-'
  }

  /** The pattern of addheader: a name, a colon, a space and a value on one line. */
  predicate IsHeader(v: string) {
    var i := Find(v, ":");
    && 0 < i < |v| - 2 && v[i + 1] == ' '
    && (forall c | c in v[..i] :: IsNameChar(c)) && '\n' !in v[i + 2..]
  }

  /** The validator accepts only such values for addheader. */
  ghost predicate HeaderPattern(env: Env) {
    forall v | env.accepts("addheader", v) :: IsHeader(v)
  }

  /** strings.SplitN(v, ":", 2). */
  function HeaderParts(v: string): (string, string)
    requires IsHeader(v)
  {
    (v[..Find(v, ":")], v[Find(v, ":") + 1..])
  }

  predicate HeadersGiven(cmds: Commands, result: map<string, string>) {
    && ("addheader" in cmds.actions ==> "addheader" in result && IsHeader(result["addheader"]))
    && ("delheader" in cmds.actions ==> "delheader" in result)
  }

  /** The stored headers after a request: one may be added first, then one removed. */
  function Stored(m: map<string, string>, cmds: Commands, result: map<string, string>): map<string, string>
    requires HeadersGiven(cmds, result)
  {
    var added :=
      if Active(cmds, "addheader") then
        var (name, value) := HeaderParts(result["addheader"]);
        m[ToLower(name) := value]
      else m;
    if Active(cmds, "delheader") then added - {ToLower(result["delheader"])} else added
  }

  // ---- the response ----

  /** Header values are listed by lower-case name, in the order in which they were added. */
  datatype Response = Disconnected | Sent(status: int, headers: map<string, seq<string>>, body: string)

  function Values(headers: map<string, seq<string>>, name: string): seq<string> {
    if name in headers then headers[name] else []
  }

  /** A stored header joins the values that the response already has under its name. */
  ghost predicate Extends(headers': map<string, seq<string>>, headers: map<string, seq<string>>,
                          m: map<string, string>) {
    forall name :: Values(headers', name) == Values(headers, name) + if name in m then [m[name]] else []
  }

  /** The stored headers are added in an arbitrary order. */
  method AddStored(headers: map<string, seq<string>>, m: map<string, string>)
      returns (headers': map<string, seq<string>>)
    ensures Extends(headers', headers, m)
  {
    headers' := headers;
    var todo := m.Keys;
    while todo != {}
      invariant todo <= m.Keys
      invariant forall name ::
          Values(headers', name) == Values(headers, name) + if name in m && name !in todo then [m[name]] else []
      decreases todo
    {
      var key :| key in todo;
      headers' := headers'[key := Values(headers', key) + [m[key]]];
      todo := todo - {key};
    }
  }

  /** The length that a response of this size should announce: none when chunked. */
  function ProperLength(chunked: bool, size: nat): seq<string> {
    if chunked then [] else [Itoa(size)]
  }

  /** The headers of a response before the stored ones are added. */
  function OwnHeaders(chunked: bool, size: nat): map<string, seq<string>> {
    if chunked then map["content-type" := ["application/json"]]
    else map["content-type" := ["application/json"], "content-length" := [Itoa(size)]]
  }

  lemma OwnLength(chunked: bool, size: nat, headers: map<string, seq<string>>, m: map<string, string>)
    requires Extends(headers, OwnHeaders(chunked, size), m)
    ensures Values(headers, "content-length") == ProperLength(chunked, size) <==> "content-length" !in m
    ensures "content-length" in m ==>
              Values(headers, "content-length") == ProperLength(chunked, size) + [m["content-length"]]
  {
    assert Values(OwnHeaders(chunked, size), "content-length") == ProperLength(chunked, size);
  }

  /** The updates of the stored headers by one request. */
  method UpdateStored(cmds: Commands, result: map<string, string>, headerMap: HeaderMap)
    requires HeadersGiven(cmds, result) && NeedsAction(cmds)
    modifies headerMap
    ensures headerMap.m == Stored(old(headerMap.m), cmds, result)
  {
    if "addheader" in cmds.actions {
      var addHeader := HeaderParts(result["addheader"]);
      headerMap.Add(addHeader.0, addHeader.1);
    }
    if "delheader" in cmds.actions {
      headerMap.Delete(result["delheader"]);
    }
  }

  function SizeOf(cmds: Commands, result: map<string, string>, respJSON: string): (size: int)
    requires "size" in cmds.actions ==> "size" in result
  {
    if Active(cmds, "size") then AtoiValue(result["size"]) else |respJSON|
  }

  function StatusOf(cmds: Commands, result: map<string, string>): int
    requires "status" in cmds.actions ==> "status" in result
  {
    if Active(cmds, "status") then AtoiValue(result["status"]) else 200
  }

  /** The part of execAction that carries out the commands. */
  method Prepare(cmds: Commands, result: map<string, string>, respJSON: string, headerMap: HeaderMap)
      returns (disconnected: bool, respSize: int, statusCode: int, chunkFlag: bool, headers: map<string, seq<string>>)
    requires HeadersGiven(cmds, result) && forall k | k in cmds.actions :: k in result
    requires "size" in cmds.actions ==> AtoiValue(result["size"]) >= 0
    modifies headerMap
    ensures headerMap.m == Stored(old(headerMap.m), cmds, result)
    ensures disconnected <==> Active(cmds, "disconnect")
    ensures respSize == SizeOf(cmds, result, respJSON) >= 0 && statusCode == StatusOf(cmds, result)
    ensures chunkFlag <==> Active(cmds, "chunk")
    ensures headers == OwnHeaders(chunkFlag, respSize)
  {
    respSize := |respJSON|;
    headers := map["content-type" := ["application/json"], "content-length" := [Itoa(respSize)]];
    statusCode := 200;
    chunkFlag, disconnected := false, false;
    if NeedsAction(cmds) {
      if "status" in cmds.actions {
        statusCode := AtoiValue(result["status"]);
      }
      if "size" in cmds.actions {
        respSize := AtoiValue(result["size"]);
        headers := headers["content-length" := [Itoa(respSize)]];
      }
      UpdateStored(cmds, result, headerMap);
      if "chunk" in cmds.actions {
        chunkFlag := true;
        headers := headers - {"content-length"};
      }
      disconnected := "disconnect" in cmds.actions;
    }
  }

  /**
   The announced length is that of the body, followed by a stored content-length; so it is the proper one
   exactly when none is stored. `takesBody` says which statuses the response writer accepts a body for: for
   the others every write is refused, the error is printed, and the size is counted all the same.
   */
  method ExecAction(cmds: Commands, result: map<string, string>, respJSON: string, http11: bool,
                    headerMap: HeaderMap, takesBody: int -> bool, src: Source)
      returns (resp: Response, respSize: nat, statusCode: int)
    requires Recurs(Accepting(src)) && HeadersGiven(cmds, result)
    requires forall k | k in cmds.actions :: k in result
    requires "size" in cmds.actions ==> Digits(result["size"])
    modifies headerMap
    ensures headerMap.m == Stored(old(headerMap.m), cmds, result)
    ensures Active(cmds, "disconnect") ==> resp == Disconnected && respSize == 0 && statusCode == 0
    ensures !Active(cmds, "disconnect") ==>
              && resp.Sent?
              && resp.body == (if takesBody(statusCode) then Body(SupplyOf(src), respJSON, respSize) else "")
              && (|resp.body| == respSize <==> takesBody(statusCode) || respSize == 0)
              && respSize == SizeOf(cmds, result, respJSON)
              && resp.status == statusCode == StatusOf(cmds, result)
              && Extends(resp.headers, OwnHeaders(Active(cmds, "chunk"), respSize), headerMap.m)
              && (Values(resp.headers, "content-length") == ProperLength(Active(cmds, "chunk"), respSize)
                  <==> "content-length" !in headerMap.m)
  {
    if "size" in cmds.actions {
      AtoiDigits(result["size"]);
    }
    var disconnected, size, status, chunkFlag, headers := Prepare(cmds, result, respJSON, headerMap);
    if disconnected {
      return Disconnected, 0, 0;
    }
    respSize, statusCode := size, status;
    headers := AddStored(headers, headerMap.m);
    OwnLength(chunkFlag, respSize, headers, headerMap.m);
    var body := "";
    if takesBody(statusCode) {
      body := Write(respJSON, respSize, chunkFlag && http11, src);
    }
    resp := Sent(statusCode, headers, body);
  }

  method Write(respJSON: string, respSize: nat, chunked: bool, src: Source) returns (body: string)
    requires Recurs(Accepting(src))
    ensures body == Body(SupplyOf(src), respJSON, respSize) && |body| == respSize
  {
    ghost var supply := SupplyOf(src);
    SupplyQuality(src, supply);
    BodyLength(supply, respJSON, respSize);
    if chunked {
      body := WriteChunkedResponse(src, respSize, respJSON, supply);
    } else {
      body := WriteResponse(src, respSize, respJSON, supply);
    }
  }

  /** A request that stores "Content-Length: 5" spoils the headers of its own response: those handed to the
      library have both n and 5 for a size of n, and 5 alone where a chunked response should have none. */
  lemma StoredLengthSpoils(m: map<string, string>, cmds: Commands, result: map<string, string>,
                           headers: map<string, seq<string>>, chunked: bool, n: nat)
    requires HeadersGiven(cmds, result) && Active(cmds, "addheader") && !Active(cmds, "delheader")
    requires result["addheader"] == "Content-Length: 5"
    requires Extends(headers, OwnHeaders(chunked, n), Stored(m, cmds, result))
    ensures Values(headers, "content-length") == ProperLength(chunked, n) + [" 5"]
  {
    ContentLengthHeader();
    OwnLength(chunked, n, headers, Stored(m, cmds, result));
  }

  /** Every name and value that the pattern allows is read back, the value with the space before it. */
  lemma HeaderReadBack(name: string, value: string)
    requires name != "" && forall c | c in name :: c == '-' || '0' <= c <= '9' || 'A' <= c <= 'Z' || 'a' <= c <= 'z'
    requires value != "" && '\n' !in value
    ensures IsHeader(name + ": " + value)
    ensures HeaderParts(name + ": " + value) == (name, " " + value)
  {
    var v, tail := name + ": " + value, " " + value;
    assert v == name + ":" + tail;
    FindFirst(name, ":", tail);
    assert v[..|name|] == name && v[|name| + 1..] == tail && v[|name| + 2..] == value;
  }

  lemma ContentLengthHeader()
    ensures IsHeader("Content-Length: 5")
    ensures HeaderParts("Content-Length: 5") == ("Content-Length", " 5")
    ensures ToLower("Content-Length") == "content-length"
  {
    NameIsPlain();
    LowerName();
    HeaderReadBack("Content-Length", "5");
    assert "Content-Length" + ": " + "5" == "Content-Length: 5" && " " + "5" == " 5";
  }

  lemma NameIsPlain()
    ensures forall c | c in "Content-Length" :: IsNameChar(c)
  {
  }

  lemma LowerName()
    ensures ToLower("Content-Length") == "content-length"
  {
    assert ToLower("Content-Length")[0] == 'c';
  }

  /** The values given for a command, as one text. */
  function Text(query: map<string, seq<string>>, key: string): string {
    if key in query then Join(query[key], OR_SEPARATOR) else ""
  }

  /** The size of an answer: that of the JSON, a given number, or one in a given range. */
  predicate SizeAsAsked(cmds: Commands, query: map<string, seq<string>>, respJSON: string, size: int) {
    if !Active(cmds, "size") then size == |respJSON|
    else
      && IsNumRange(Text(query, "size"))
      && Clip(Written(Text(query, "size")).0) <= size <= Clip(Written(Text(query, "size")).1)
      && ('-' !in Text(query, "size") ==>
            Digits(Text(query, "size")) && size == Clip(Value(Text(query, "size"))))
  }

  predicate StatusAsAsked(cmds: Commands, query: map<string, seq<string>>, status: int) {
    status == if Active(cmds, "status") then AtoiValue(Text(query, "status")) else 200
  }

  /** A header has the server's own value, if it has one, and behind it the stored one, if there is one. */
  predicate IsAnswered(values: seq<string>, own: seq<string>, stored: map<string, string>, name: string) {
    values == own + if name in stored then [stored[name]] else []
  }

  /** The header map handed to the library: the server's own headers are right exactly where nothing is stored. */
  ghost predicate HeadersAsAsked(cmds: Commands, stored: map<string, string>,
                                 headers: map<string, seq<string>>, size: nat) {
    var length := if Active(cmds, "chunk") then [] else [Itoa(size)];
    && IsAnswered(Values(headers, "content-length"), length, stored, "content-length")
    && (Values(headers, "content-length") == length <==> "content-length" !in stored)
    && IsAnswered(Values(headers, "content-type"), ["application/json"], stored, "content-type")
    && (forall name | name != "content-length" && name != "content-type" ::
          IsAnswered(Values(headers, name), [], stored, name))
  }

  /** The body is there if the status takes one, has that size, and without a size command is the JSON. */
  ghost predicate BodyAsAsked(cmds: Commands, respJSON: string, src: Source, takesBody: bool, body: string, size: nat)
    requires Recurs(Accepting(src))
  {
    && |body| == (if takesBody then size else 0)
    && (takesBody ==> body == Body(SupplyOf(src), respJSON, size))
    && (takesBody && !Active(cmds, "size") ==> body == respJSON)
  }

  lemma SizeMeaning(env: Env, query: map<string, seq<string>>, input: map<string, string>, cmds: Commands,
                    random: string -> nat, respJSON: string)
    requires RangePatterns(env) && Classified(env, input, cmds) && WellTyped(cmds)
    requires input.Keys == query.Keys && forall k | k in query :: input[k] == Text(query, k)
    ensures "size" in cmds.actions ==> "size" in Evaluated(cmds, random) && Digits(Evaluated(cmds, random)["size"])
    ensures SizeAsAsked(cmds, query, respJSON, SizeOf(cmds, Evaluated(cmds, random), respJSON))
  {
    ActionsWellTyped(env, input, cmds);
    if "size" in cmds.actions {
      RangeValueInBounds("size", Field(cmds, "size"), random("size"));
      if '-' !in Text(query, "size") {
        FindNothing(Text(query, "size"), "-");
      }
    }
  }

  lemma StatusMeaning(env: Env, query: map<string, seq<string>>, input: map<string, string>, cmds: Commands,
                      random: string -> nat)
    requires Classified(env, input, cmds) && WellTyped(cmds)
    requires input.Keys == query.Keys && forall k | k in query :: input[k] == Text(query, k)
    ensures "status" in cmds.actions ==> "status" in Evaluated(cmds, random)
    ensures StatusAsAsked(cmds, query, StatusOf(cmds, Evaluated(cmds, random)))
  {
    StatusText(env, input, cmds, random);
  }

  lemma HeadersMeaning(cmds: Commands, stored: map<string, string>, headers: map<string, seq<string>>, size: nat)
    requires Extends(headers, OwnHeaders(Active(cmds, "chunk"), size), stored)
    ensures HeadersAsAsked(cmds, stored, headers, size)
  {
    OwnLength(Active(cmds, "chunk"), size, headers, stored);
    assert Values(OwnHeaders(Active(cmds, "chunk"), size), "content-type") == ["application/json"];
  }

  /**
   The default handler, from the query to the response: size, status, headers and body are as the query
   asks. In particular a size=a-b command in either order yields, for every random choice, a length
   between a and b that is counted and announced.
   */
  method DefaultHandler(env: Env, query: map<string, seq<string>>, random: string -> nat, respJSON: string,
                        http11: bool, headerMap: HeaderMap, takesBody: int -> bool, src: Source)
      returns (cmds: Commands, panics: bool, resp: Response, sentBytes: nat)
    requires RangePatterns(env) && HeaderPattern(env) && Recurs(Accepting(src))
    modifies headerMap
    ensures Classified(env, map k | k in query :: Join(query[k], OR_SEPARATOR), cmds) && WellTyped(cmds)
    ensures panics <==> EvaluatePanics(cmds)
    ensures HeadersGiven(cmds, Evaluated(cmds, random))
    ensures headerMap.m
            == if panics then old(headerMap.m) else Stored(old(headerMap.m), cmds, Evaluated(cmds, random))
    ensures !panics && Active(cmds, "disconnect") ==> resp == Disconnected && sentBytes == 0
    ensures !panics && !Active(cmds, "disconnect") ==>
              && resp.Sent? && SizeAsAsked(cmds, query, respJSON, sentBytes)
              && StatusAsAsked(cmds, query, resp.status)
              && HeadersAsAsked(cmds, headerMap.m, resp.headers, sentBytes)
              && BodyAsAsked(cmds, respJSON, src, takesBody(resp.status), resp.body, sentBytes)
  {
    cmds := ValidateCommands(env, query);
    ghost var input := map k | k in query :: Join(query[k], OR_SEPARATOR);
    ActionsWellTyped(env, input, cmds);
    HeadersEvaluated(env, input, cmds, random);
    var result;
    panics, result := Evaluate(cmds, random);
    resp, sentBytes := Disconnected, 0;
    if panics {
      return;
    }
    SizeMeaning(env, query, input, cmds, random, respJSON);
    StatusMeaning(env, query, input, cmds, random);
    var statusCode;
    resp, sentBytes, statusCode := ExecAction(cmds, result, respJSON, http11, headerMap, takesBody, src);
    if resp.Sent? {
      HeadersMeaning(cmds, headerMap.m, resp.headers, sentBytes);
      BodyOfJson(SupplyOf(src), respJSON);
    }
  }

  lemma StatusText(env: Env, input: map<string, string>, cmds: Commands, random: string -> nat)
    requires Classified(env, input, cmds) && WellTyped(cmds)
    ensures "status" in cmds.actions ==>
              && "status" in Evaluated(cmds, random) && "status" in input
              && Evaluated(cmds, random)["status"] == input["status"]
  {
    MarkedFields(env, input, cmds, "status");
    EvaluatedField(env, input, cmds, random, "status");
    assert !IsRangeKey("status") && !IsCondition("status") && "status" != "chunk" by {
      assert "status"[0] != "if"[0] && |"status"| != |"chunk"|;
    }
  }

  /** Without a size the body is the JSON itself. */
  lemma BodyOfJson(supply: Supply, json: string)
    ensures Body(supply, json, |json|) == json
  {
    assert (json + "\n\n")[..|json|] == json;
  }

  /** The stored headers after a request that adds one, removes one, does both, or neither. */
  lemma StoredIs(m: map<string, string>, cmds: Commands, result: map<string, string>, name: string, value: string)
    requires HeadersGiven(cmds, result)
    requires name != "" && forall c | c in name :: c == '-' || '0' <= c <= '9' || 'A' <= c <= 'Z' || 'a' <= c <= 'z'
    requires value != "" && '\n' !in value
    requires Active(cmds, "addheader") ==> result["addheader"] == name + ": " + value
    ensures var after := Stored(m, cmds, result);
      var added := if Active(cmds, "addheader") then m[ToLower(name) := " " + value] else m;
      after == if Active(cmds, "delheader") then added - {ToLower(result["delheader"])} else added
  {
    HeaderReadBack(name, value);
  }

  lemma HeadersEvaluated(env: Env, input: map<string, string>, cmds: Commands, random: string -> nat)
    requires RangePatterns(env) && HeaderPattern(env) && Classified(env, input, cmds) && WellTyped(cmds)
    ensures HeadersGiven(cmds, Evaluated(cmds, random))
  {
    ActionsWellTyped(env, input, cmds);
    assert !IsRangeKey("addheader") && "addheader" != "chunk";
  }
}
