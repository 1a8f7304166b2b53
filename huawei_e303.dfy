/**
 * The client for the Huawei E303 dongle's HTTP/XML management API: the
 * client object, the flattening of a response document into a dictionary,
 * and the decoding of the connection status.
 *
 * The HTTP exchange is a parameter `server`: the response the dongle gives
 * for a URL. Its body is given already parsed (`document`), or `None` when
 * it is not well-formed UTF-8 XML.
 */
module HuaweiE303 {
  import opened Wrappers
  import opened Text

  /** The dongle's fixed gateway address. */
  const Ip := "192.168.8.1"

  /** The prefix of every API URL, `"http://{}/api".format(ip)`. */
  const ApiRoot := "http://" + Ip + "/api"

  const StatusPath := "/monitoring/status"

  /** An XML element: its tag, its own text (absent when empty), its children. */
  datatype Element = Element(tag: string, text: Option<string>, children: seq<Element>)

  /** What the dongle answers to one GET request. */
  datatype HttpResponse = HttpResponse(statusCode: int, document: Option<Element>)

  /** The flattened response: child tag to child text. */
  type Fields = map<string, Option<string>>

  /** The exceptions the client lets escape, one constructor per Python exception. */
  datatype ApiError =
    | MalformedBody                        // the body does not decode or parse as XML
    | MissingKey(key: string)              // a `KeyError` on the response dictionary
    | NotAnInteger(text: Option<string>)   // `int()` of a non-number or of `None`
    | UnknownStatus(code: Option<string>)  // a `KeyError` on the status table

  /** The result of `get_status`: the dictionary `{'status': …, 'signal': …}`. */
  datatype StatusReport = StatusReport(status: string, signal: int)

  /** Connection status codes and their descriptions, as the dongle reports them. */
  const StatusTable: map<string, string> := map[
    "900" := "connecting",
    "901" := "connected",
    "902" := "disconnected",
    "903" := "disconnecting",
    "905" := "connected"
  ]

  /**
   * `result[child.tag] = child.text` over the children in order: each child
   * overwrites any earlier entry with the same tag.
   */
  function Flatten(children: seq<Element>): Fields
  {
    if children == [] then map[]
    else
      var last := children[|children| - 1];
      Flatten(children[..|children| - 1])[last.tag := last.text]
  }

  /** `children[k]` is the last child carrying its tag. */
  predicate LastWithTag(children: seq<Element>, k: nat)
    requires k < |children|
  {
    forall j :: k < j < |children| ==> children[j].tag != children[k].tag
  }

  /** The flattened dictionary has exactly the children's tags as keys. */
  lemma {:induction false} FlattenKeys(children: seq<Element>)
    ensures forall t :: t in Flatten(children) <==> exists k :: 0 <= k < |children| && children[k].tag == t
  {
    if children != [] {
      var n := |children| - 1;
      var init := children[..n];
      FlattenKeys(init);
      forall t | t in Flatten(children)
        ensures exists k :: 0 <= k < |children| && children[k].tag == t
      {
        if t != children[n].tag {
          assert t in Flatten(init);
          var k :| 0 <= k < n && init[k].tag == t;
          assert children[k].tag == t;
        }
      }
      forall t | exists k :: 0 <= k < |children| && children[k].tag == t
        ensures t in Flatten(children)
      {
        var k :| 0 <= k < |children| && children[k].tag == t;
        if k < n {
          assert init[k].tag == t;
        }
      }
    }
  }

  /** Each tag maps to the text of the last child that carries it. */
  lemma {:induction false} FlattenLast(children: seq<Element>)
    ensures forall k :: 0 <= k < |children| ==> children[k].tag in Flatten(children)
    ensures forall k :: 0 <= k < |children| && LastWithTag(children, k) ==>
              Flatten(children)[children[k].tag] == children[k].text
  {
    if children != [] {
      var n := |children| - 1;
      var init := children[..n];
      FlattenLast(init);
      forall k | 0 <= k < |children| && LastWithTag(children, k)
        ensures Flatten(children)[children[k].tag] == children[k].text
      {
        if k < n {
          assert LastWithTag(init, k);
          assert init[k] == children[k];
        }
      }
    }
  }

  /**
   * What `_api_get` makes of a response: the empty dictionary for any status
   * other than 200, else the flattened children of the root, whatever the
   * root's tag.
   */
  function ResponseFields(response: HttpResponse): Result<Fields, ApiError>
  {
    if response.statusCode != 200 then Success(map[])
    else match response.document
      case None => Failure(MalformedBody)
      case Some(root) => Success(Flatten(root.children))
  }

  /**
   * The root's tag and text play no part: an `<error>` envelope is flattened
   * exactly like a `<response>` one.
   */
  lemma {:induction false} RootIgnored(root: Element, tag: string, text: Option<string>)
    ensures ResponseFields(HttpResponse(200, Some(root)))
         == ResponseFields(HttpResponse(200, Some(Element(tag, text, root.children))))
         == Success(Flatten(root.children))
  {
  }

  /**
   * `get_status` after the request: signal is `SignalIcon` scaled to a
   * percentage, status is `ConnectionStatus` looked up in the table. The
   * signal is read first, so its failures take precedence.
   */
  function DecodeStatus(raw: Fields): (r: Result<StatusReport, ApiError>)
    ensures r.Success? <==>
              && "SignalIcon" in raw && raw["SignalIcon"].Some?
              && ParseInt(raw["SignalIcon"].value).Some?
              && "ConnectionStatus" in raw && raw["ConnectionStatus"].Some?
              && raw["ConnectionStatus"].value in StatusTable.Keys
    ensures "SignalIcon" !in raw ==> r == Failure(MissingKey("SignalIcon"))
    ensures r.Failure? && "SignalIcon" in raw && raw["SignalIcon"].Some? && ParseInt(raw["SignalIcon"].value).Some? ==>
              if "ConnectionStatus" in raw then r == Failure(UnknownStatus(raw["ConnectionStatus"]))
              else r == Failure(MissingKey("ConnectionStatus"))
    ensures "SignalIcon" in raw && (raw["SignalIcon"].None? || ParseInt(raw["SignalIcon"].value).None?) ==>
              r == Failure(NotAnInteger(raw["SignalIcon"]))
    ensures r.Success? ==>
              var icon := ParseInt(raw["SignalIcon"].value).value;
              && (0 <= icon <= 5 ==> r.value.signal == 20 * icon && 0 <= r.value.signal <= 100)
              && r.value.status == StatusTable[raw["ConnectionStatus"].value]
  {
    if "SignalIcon" !in raw then Failure(MissingKey("SignalIcon"))
    else if raw["SignalIcon"].None? || ParseInt(raw["SignalIcon"].value).None? then
      Failure(NotAnInteger(raw["SignalIcon"]))
    else
      var signal := SignalPercent(ParseInt(raw["SignalIcon"].value).value);
      if "ConnectionStatus" !in raw then Failure(MissingKey("ConnectionStatus"))
      else
        var code := raw["ConnectionStatus"];
        if code.None? || code.value !in StatusTable then Failure(UnknownStatus(code))
        else Success(StatusReport(StatusTable[code.value], signal))
  }

  /**
   * `int(icon / 5.0 * 100.0)` computed in exact arithmetic. This agrees with
   * the double arithmetic of the source for levels 0..5 only; for other
   * levels the product in doubles can fall just short of a whole number and
   * be truncated one lower (level 23 gives 459 there).
   */
  function SignalPercent(icon: int): int
  {
    icon * 100 / 5
  }

  /**
   * The status table: 900 is connecting, 901 and 905 connected, 902
   * disconnected, 903 disconnecting, and no other code is known.
   */
  lemma {:induction false} StatusTableMeaning(code: string)
    ensures code in StatusTable <==> code in {"900", "901", "902", "903", "905"}
    ensures code in StatusTable ==>
              && (StatusTable[code] == "connecting" <==> code == "900")
              && (StatusTable[code] == "connected" <==> code == "901" || code == "905")
              && (StatusTable[code] == "disconnected" <==> code == "902")
              && (StatusTable[code] == "disconnecting" <==> code == "903")
  {
  }

  /**
   * A response whose children report status `code` (child `i`) and icon
   * level `icon` (child `j`), in any order and with any other children
   * around them, decodes to that report, as long as no later child repeats
   * either tag.
   */
  lemma {:induction false} DecodeReported(children: seq<Element>, i: nat, j: nat, code: string, icon: int)
    requires i < |children| && j < |children|
    requires children[i] == Element("ConnectionStatus", Some(code), children[i].children)
    requires children[j] == Element("SignalIcon", Some(FormatInt(icon)), children[j].children)
    requires LastWithTag(children, i) && LastWithTag(children, j)
    requires 0 <= icon <= 5 && code in StatusTable
    ensures DecodeStatus(Flatten(children)) == Success(StatusReport(StatusTable[code], 20 * icon))
  {
    FlattenLast(children);
    ParseFormat(icon);
  }

  /** The client object for one attached E303 dongle. */
  class HuaweiE303Modem {
    var interface: Option<string>
    var path: string
    var ip: string
    var baseUrl: string

    constructor (interface: Option<string>, sysfsPath: string)
      ensures this.interface == interface && path == sysfsPath
      ensures ip == "192.168.8.1" && baseUrl == "http://192.168.8.1/api"
    {
      this.interface := interface;
      path := sysfsPath;
      ip := Ip;
      baseUrl := ApiRoot;
    }

    /**
     * `_api_get(url, parameters)`: requests `baseUrl + url` and flattens the
     * answer. The unused `parameters` argument is not modelled.
     */
    method ApiGet(url: string, server: string -> HttpResponse) returns (r: Result<Fields, ApiError>)
      ensures r == ResponseFields(server(baseUrl + url))
      ensures server(baseUrl + url).statusCode != 200 ==> r == Success(map[])
    {
      var response := server(baseUrl + url);
      if response.statusCode == 200 {
        if response.document.None? {
          return Failure(MalformedBody);
        }
        var root := response.document.value;
        var result: Fields := map[];
        for i := 0 to |root.children|
          invariant result == Flatten(root.children[..i])
        {
          var child := root.children[i];
          assert root.children[..i + 1][..i] == root.children[..i];
          result := result[child.tag := child.text];
        }
        assert root.children[..|root.children|] == root.children;
        return Success(result);
      }
      return Success(map[]);
    }

    /** `get_status()`: fetch the monitoring status and decode it. */
    method GetStatus(server: string -> HttpResponse) returns (r: Result<StatusReport, ApiError>)
      ensures r == match ResponseFields(server(baseUrl + StatusPath))
                   case Failure(e) => Failure(e)
                   case Success(raw) => DecodeStatus(raw)
      ensures server(baseUrl + StatusPath).statusCode != 200 ==> r == Failure(MissingKey("SignalIcon"))
    {
      var raw := ApiGet(StatusPath, server);
      if raw.Failure? {
        return Failure(raw.error);
      }
      r := DecodeStatus(raw.value);
    }
  }
}
