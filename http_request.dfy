/**
  The parts of Go's `net/http` request that the sink builds: the header
  table (`http.Header`, a map from key to the list of its values, where
  `Add` appends) and the request object that `http.NewRequest` returns.
  Keys are taken as given: the canonicalisation `Header.Add` applies to
  them is not part of this model.
 */
module HttpRequest {
  import opened ByteBuffer

  type Header = map<string, seq<string>>

  /** `h.Add(key, value)` as a value: `value` goes after every value already under `key`. */
  function AddValue(h: Header, key: string, value: string): (r: Header)
    ensures r.Keys == h.Keys + {key}
    ensures key in h ==> r[key] == h[key] + [value]
    ensures key !in h ==> r[key] == [value]
    ensures forall k :: k in h ==> h[k] <= r[k]
    ensures forall k :: k in h && k != key ==> r[k] == h[k]
  {
    h[key := (if key in h then h[key] else []) + [value]]
  }

  /** The number of values in the table, over all keys. */
  ghost function ValueCount(h: Header): nat
    decreases |h|
  {
    if h == map[] then 0
    else
      var k :| k in h;
      assert |h - {k}| < |h| by { CardRemove(h, k); }
      |h[k]| + ValueCount(h - {k})
  }

  lemma CardRemove<K, V>(m: map<K, V>, k: K)
    requires k in m
    ensures |m - {k}| == |m| - 1
  {
    assert (m - {k}).Keys == m.Keys - {k};
  }

  /** The count does not depend on which key the definition happens to take first. */
  lemma {:induction false} ValueCountAt(h: Header, k: string)
    requires k in h
    ensures ValueCount(h) == |h[k]| + ValueCount(h - {k})
    decreases |h|
  {
    var j :| j in h && ValueCount(h) == |h[j]| + ValueCount(h - {j});
    if j != k {
      CardRemove(h, j);
      CardRemove(h, k);
      ValueCountAt(h - {j}, k);
      ValueCountAt(h - {k}, j);
      assert (h - {j}) - {k} == (h - {k}) - {j};
    }
  }

  /** Adding one header adds exactly one value to the table and removes none. */
  lemma AddValueCount(h: Header, key: string, value: string)
    ensures ValueCount(AddValue(h, key, value)) == ValueCount(h) + 1
  {
    var r := AddValue(h, key, value);
    ValueCountAt(r, key);
    assert r - {key} == h - {key};
    if key in h {
      ValueCountAt(h, key);
    } else {
      assert h - {key} == h;
    }
  }

  /** A request as `client.Do` receives it. */
  datatype RequestValue = RequestValue(verb: string, url: string, body: seq<byte>, header: Header)

  /** The `*http.Request` from `http.NewRequest`: fixed method, URL and body, and a header table filled in place. */
  class Request {
    const verb: string
    const url: string
    const body: seq<byte>
    var header: Header

    /** A successful `http.NewRequest(verb, url, body)`: the header table starts empty. */
    constructor (verb: string, url: string, body: seq<byte>)
      ensures this.verb == verb && this.url == url && this.body == body
      ensures header == map[]
    {
      this.verb := verb;
      this.url := url;
      this.body := body;
      header := map[];
    }

    /** `req.Header.Add(key, value)`. */
    method AddHeader(key: string, value: string)
      modifies this
      ensures header == AddValue(old(header), key, value)
    {
      header := AddValue(header, key, value);
    }

    /** The request as it stands now. */
    function Value(): (v: RequestValue)
      reads this
      ensures v.verb == verb && v.url == url && v.body == body && v.header == header
    {
      RequestValue(verb, url, body, header)
    }
  }
}
