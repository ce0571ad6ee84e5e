/** The vector store's configuration and its transfer objects. */
module ChromaModels {
  import opened Wrappers
  import opened Numerics
  import Text

  /** `ChromaConfiguration`; the defaults are those of `DefaultConfiguration`. */
  datatype ChromaConfiguration = ChromaConfiguration(
    Host: string,
    Port: int32,
    CollectionNamePrefix: string,
    MaxRetries: int32,
    TimeoutSeconds: int32)

  const DefaultConfiguration := ChromaConfiguration("http://localhost", 8601, "cah_", 3, 30)

  /** `Host:Port`. */
  function GetConnectionUrl(c: ChromaConfiguration): (url: string)
    ensures |url| > |c.Host| && url[..|c.Host|] == c.Host && url[|c.Host|] == ':'
    ensures url[|c.Host| + 1..] == Text.IntToString(c.Port)
    ensures PortText(url) == Text.IntToString(c.Port)
  {
    var url := c.Host + ":" + Text.IntToString(c.Port);
    PortTextAfterColon(c.Host, Text.IntToString(c.Port));
    url
  }

  /** The text after the last ':' of a URL (the whole URL when it has none). */
  function PortText(url: string): string
  {
    if |url| == 0 then ""
    else if url[|url| - 1] == ':' then ""
    else PortText(url[..|url| - 1]) + [url[|url| - 1]]
  }

  lemma {:induction false} PortTextAfterColon(host: string, port: string)
    requires ':' !in port
    ensures PortText(host + ":" + port) == port
  {
    if |port| > 0 {
      var p := port[..|port| - 1];
      assert (host + ":" + port)[..|host + ":" + port| - 1] == host + ":" + p;
      PortTextAfterColon(host, p);
    } else {
      assert host + ":" + port == host + ":";
    }
  }

  /** The port can be read back from the connection URL. */
  lemma ConnectionUrlPort(c: ChromaConfiguration)
    ensures Text.ParseInt(PortText(GetConnectionUrl(c))) == Some(c.Port as int)
  {
    Text.IntToStringRoundTrip(c.Port);
  }

  /** `prefix + collectionType`. */
  function GetCollectionName(c: ChromaConfiguration, collectionType: string): (name: string)
    ensures |name| == |c.CollectionNamePrefix| + |collectionType|
    ensures name[..|c.CollectionNamePrefix|] == c.CollectionNamePrefix
    ensures name[|c.CollectionNamePrefix|..] == collectionType
  {
    c.CollectionNamePrefix + collectionType
  }

  /** Different collection types never share a collection. */
  lemma CollectionNameInjective(c: ChromaConfiguration, t1: string, t2: string)
    requires GetCollectionName(c, t1) == GetCollectionName(c, t2)
    ensures t1 == t2
  {
    var n := GetCollectionName(c, t1);
    assert t1 == n[|c.CollectionNamePrefix|..];
  }

  /** The standards collection under the default configuration. */
  lemma DefaultStandardsCollection()
    ensures GetCollectionName(DefaultConfiguration, "standards") == "cah_standards"
  {
  }

  /** `TimeSpan`, counted in 100-nanosecond ticks. */
  datatype TimeSpan = TimeSpan(Ticks: int)

  const TicksPerSecond := 10_000_000

  /** `TimeSpan.FromSeconds(TimeoutSeconds)`. */
  function GetTimeout(c: ChromaConfiguration): (t: TimeSpan)
    ensures t.Ticks % TicksPerSecond == 0
    ensures t.Ticks / TicksPerSecond == c.TimeoutSeconds as int
  {
    TimeSpan(c.TimeoutSeconds * TicksPerSecond)
  }

  /** A `float[]` vector; float rounding is not modelled. */
  type Vector = seq<real>

  /** `VectorEmbedding`: one stored vector with its id, metadata and optional document. */
  datatype VectorEmbedding = VectorEmbedding(
    Id: string,
    Embedding: Vector,
    Metadata: map<string, string>,
    Document: Option<string>)

  /** A `new VectorEmbedding()`: empty id, empty vector, no metadata, null document. */
  const NewVectorEmbedding := VectorEmbedding("", [], map[], None)

  /** `VectorSearchResult`: one hit of a search. */
  datatype VectorSearchResult = VectorSearchResult(
    Id: string,
    Distance: real,
    Metadata: map<string, string>,
    Document: Option<string>)
}
