/** What the proxy uses of the mongoose event library: the parsed HTTP
    message it is handed, mongoose's string comparisons, the scan over the
    header slots, and the header lookup `mg_get_http_header`. */
module Mongoose {
  import opened Wrappers

  /** MG_MAX_HTTP_HEADERS: the number of header slots in a parsed message. */
  const MaxHttpHeaders: nat := 20

  datatype Header = Header(name: string, value: string)

  /** A request as the HTTP parser hands it to the proxy. `headers` lists the
      header slots in order; every slot past its end reads as an empty name,
      as the zero-initialised slots of the parser do. */
  datatype HttpMessage = HttpMessage(httpMethod: string, uri: string, headers: seq<Header>, body: string)

  /** `tolower` in the C locale: only ASCII capitals change. */
  function ToLower(c: char): char
  {
    if 'A' <= c <= 'Z' then (c as int - 'A' as int + 'a' as int) as char else c
  }

  /** `mg_vcasecmp(&s, t) == 0`: same length and equal after `tolower`. */
  predicate CaseEqual(s: string, t: string)
  {
    |s| == |t| && forall i :: 0 <= i < |s| ==> ToLower(s[i]) == ToLower(t[i])
  }

  /** The slots a loop `for (i = 0; i < budget && names[i].len > 0; i++)`
      visits: the longest prefix of at most `budget` slots whose names are
      all non-empty. */
  function Scan(hs: seq<Header>, budget: nat): (r: seq<Header>)
    ensures r <= hs && |r| <= budget
    ensures forall k :: 0 <= k < |r| ==> r[k].name != ""
    ensures |r| == budget || |r| == |hs| || hs[|r|].name == ""
  {
    if budget == 0 || hs == [] || hs[0].name == "" then []
    else [hs[0]] + Scan(hs[1..], budget - 1)
  }

  /** The headers the proxy's own loops visit (bounded by MG_MAX_HTTP_HEADERS). */
  function ScannedHeaders(hs: seq<Header>): seq<Header>
  {
    Scan(hs, MaxHttpHeaders)
  }

  /** After a loop that stops at slot `i` with `i <= |ScannedHeaders(hs)|`,
      the loop has visited exactly the scanned headers. */
  lemma ScanStopsAt(hs: seq<Header>, i: nat)
    requires i <= |ScannedHeaders(hs)|
    ensures (i < MaxHttpHeaders && i < |hs| && hs[i].name != "") <==> i < |ScannedHeaders(hs)|
    ensures hs[..i] == ScannedHeaders(hs)[..i]
  {
    var r := ScannedHeaders(hs);
    if i < |r| {
      assert hs[i] == r[i];
    }
  }

  predicate HasHeader(hs: seq<Header>, name: string)
  {
    exists i :: 0 <= i < |hs| && CaseEqual(hs[i].name, name)
  }

  /** `mg_get_http_header`: the value of the first header whose name equals
      `name` ignoring case. */
  function GetHeader(hs: seq<Header>, name: string): (r: Option<string>)
    ensures r.Some? <==> HasHeader(hs, name)
    ensures r.Some? ==> exists i :: 0 <= i < |hs| && CaseEqual(hs[i].name, name) && hs[i].value == r.value
                                    && forall j :: 0 <= j < i ==> !CaseEqual(hs[j].name, name)
  {
    if hs == [] then None
    else if CaseEqual(hs[0].name, name) then Some(hs[0].value)
    else
      var r := GetHeader(hs[1..], name);
      assert HasHeader(hs[1..], name) ==> HasHeader(hs, name) by {
        if HasHeader(hs[1..], name) {
          var i :| 0 <= i < |hs[1..]| && CaseEqual(hs[1..][i].name, name);
          assert hs[i + 1] == hs[1..][i];
        }
      }
      assert HasHeader(hs, name) ==> HasHeader(hs[1..], name) by {
        if HasHeader(hs, name) {
          var i :| 0 <= i < |hs| && CaseEqual(hs[i].name, name);
          assert i > 0 && hs[1..][i - 1] == hs[i];
        }
      }
      if r.Some? then
        assert exists i :: 0 <= i < |hs| && CaseEqual(hs[i].name, name) && hs[i].value == r.value
                           && forall j :: 0 <= j < i ==> !CaseEqual(hs[j].name, name) by {
          var i :| 0 <= i < |hs[1..]| && CaseEqual(hs[1..][i].name, name) && hs[1..][i].value == r.value
                   && forall j :: 0 <= j < i ==> !CaseEqual(hs[1..][j].name, name);
          assert hs[i + 1] == hs[1..][i];
          forall j | 0 <= j < i + 1 ensures !CaseEqual(hs[j].name, name) {
            if j > 0 { assert hs[j] == hs[1..][j - 1]; }
          }
        }
        r
      else r
  }
}
