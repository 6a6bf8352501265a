/**
 * The default site configuration document (`plainConfig`), `generateConfig`,
 * and the file `init` writes it to.
 */
module SiteConfig {
  import opened Wrappers
  import opened Text
  import opened Json
  import opened Validators

  /** The `transformation` mapping: `request_headers` and `response_headers`. */
  datatype Transformation = Transformation(requestHeaders: seq<JsonValue>, responseHeaders: seq<JsonValue>)

  /**
   * The configuration document. Fields carry the YAML keys `https_redirect`,
   * `target`, `hsts_enabled`, `url_normalization`, `ssl`, `av_scan`,
   * `upload_limit`, `rate_limit`, `transformation`, `rewrite`, `waf` and
   * `yara`, in that order; rule lists are opaque JSON values to the client.
   */
  datatype ConfigDoc = ConfigDoc(
    httpsRedirect: bool,
    target: string,
    hstsEnabled: bool,
    urlNormalization: bool,
    ssl: string,
    avScan: seq<JsonValue>,
    uploadLimit: seq<JsonValue>,
    rateLimit: seq<JsonValue>,
    transformation: Transformation,
    rewrite: seq<JsonValue>,
    waf: seq<JsonValue>,
    yara: seq<JsonValue>)

  /** `plainConfig`: everything off, SSL `flexible`, no rules, and a placeholder target. */
  const PlainConfig: ConfigDoc := ConfigDoc(
    httpsRedirect := false,
    target := "placeholder",
    hstsEnabled := false,
    urlNormalization := false,
    ssl := "flexible",
    avScan := [],
    uploadLimit := [],
    rateLimit := [],
    transformation := Transformation([], []),
    rewrite := [],
    waf := [],
    yara := [])

  /** The template's values, field by field. */
  lemma PlainConfigDefaults()
    ensures !PlainConfig.httpsRedirect && !PlainConfig.hstsEnabled && !PlainConfig.urlNormalization
    ensures PlainConfig.target == "placeholder" && PlainConfig.ssl == "flexible"
    ensures PlainConfig.avScan == [] && PlainConfig.uploadLimit == [] && PlainConfig.rateLimit == []
    ensures PlainConfig.transformation.requestHeaders == [] && PlainConfig.transformation.responseHeaders == []
    ensures PlainConfig.rewrite == [] && PlainConfig.waf == [] && PlainConfig.yara == []
  {
  }

  /**
   * `generateConfig` up to its serialisation: the template with `target`
   * replaced by the input minus at most one leading scheme.
   */
  function GenerateConfig(domain: string): (config: ConfigDoc)
    ensures config.(target := PlainConfig.target) == PlainConfig
    ensures HttpScheme <= domain ==> HttpScheme + config.target == domain
    ensures HttpsScheme <= domain ==> HttpsScheme + config.target == domain
    ensures !HasScheme(domain) ==> config.target == domain
  {
    PlainConfig.(target := StripScheme(domain))
  }

  /** Two inputs give the same document exactly when they agree after the scheme is stripped. */
  lemma GenerateConfigDependsOnlyOnHost(d1: string, d2: string)
    ensures GenerateConfig(d1) == GenerateConfig(d2) <==> StripScheme(d1) == StripScheme(d2)
  {
  }

  /** `http://h`, `https://h` and `h` give one document when `h` carries no scheme itself. */
  lemma GenerateConfigIgnoresScheme(host: string)
    requires !HasScheme(host)
    ensures GenerateConfig(HttpScheme + host) == GenerateConfig(host)
    ensures GenerateConfig(HttpsScheme + host) == GenerateConfig(host)
    ensures GenerateConfig(host).target == host
  {
    StripSchemeOnce(host);
  }

  /** `https://api.example.com` gives the target `api.example.com`; the other fields keep the template's values. */
  lemma GenerateConfigExample()
    ensures GenerateConfig("https://api.example.com").target == "api.example.com"
    ensures GenerateConfig("https://api.example.com").ssl == "flexible"
  {
    assert StripScheme("https://api.example.com") == "api.example.com";
  }

  /** Only one scheme is removed: regenerating from a generated target can strip again. */
  lemma GenerateConfigNotIdempotent()
    ensures GenerateConfig("https://http://a").target == "http://a"
    ensures GenerateConfig(GenerateConfig("https://http://a").target).target == "a"
  {
    StripSchemeNotIdempotent();
  }

  /**
   * A target that passed `validateUrl` yields a bare host in the document:
   * host-like, and free of `:` and `/`, so no scheme remains.
   */
  lemma ValidatedTargetIsBareHost(target: string)
    requires ValidateUrl(target) == Valid
    ensures IsHostLike(GenerateConfig(target).target)
    ensures ':' !in GenerateConfig(target).target && '/' !in GenerateConfig(target).target
  {
    var t := GenerateConfig(target).target;
    forall i | 0 <= i < |t| ensures t[i] != ':' && t[i] != '/' {
      if 0 < i < |t| - 1 {
        assert IsHostChar(t[i]);
      }
    }
  }

  const ConfigsDir: string := "configs/"
  const ConfigSuffix: string := ".yaml"

  /** `configs/<domain>.yaml`, where `init` writes the generated document. */
  function ConfigPath(domainName: string): (path: string)
    ensures ConfigsDir <= path
    ensures |path| == |ConfigsDir| + |domainName| + |ConfigSuffix|
    ensures path[|ConfigsDir|..|ConfigsDir| + |domainName|] == domainName
    ensures path[|path| - |ConfigSuffix|..] == ConfigSuffix
  {
    ConfigsDir + domainName + ConfigSuffix
  }

  /** Reads the domain back out of a config path. */
  function DomainOfConfigPath(path: string): (domainName: Option<string>)
    ensures domainName.Some? ==> |domainName.value| + |ConfigsDir| + |ConfigSuffix| == |path|
  {
    if |path| >= |ConfigsDir| + |ConfigSuffix| && ConfigsDir <= path
       && path[|path| - |ConfigSuffix|..] == ConfigSuffix
    then Some(path[|ConfigsDir|..|path| - |ConfigSuffix|])
    else None
  }

  /** Each domain has its own file: the path determines the domain. */
  lemma ConfigPathRoundTrip(domainName: string)
    ensures DomainOfConfigPath(ConfigPath(domainName)) == Some(domainName)
  {
  }

  lemma ConfigPathInjective(d1: string, d2: string)
    requires ConfigPath(d1) == ConfigPath(d2)
    ensures d1 == d2
  {
    ConfigPathRoundTrip(d1);
    ConfigPathRoundTrip(d2);
  }

  /**
   * Only the first label is checked, so an accepted domain name may hold `/`
   * and `..` segments, and the file `init` writes is not confined to a name
   * directly under `configs/`.
   */
  lemma AcceptedDomainMayHoldPathSegments()
    ensures ValidateDomain("a./../x") == Valid
    ensures ConfigPath("a./../x") == "configs/a./../x.yaml"
  {
    AcceptedDomainExample();
    ConfigPathExample();
  }

  lemma AcceptedDomainExample()
    ensures ValidateDomain("a./../x") == Valid
  {
    var d := "a./../x";
    assert d[..1] == "a";
    AcceptedAt(d, 1);
  }

  lemma ConfigPathExample()
    ensures ConfigPath("a./../x") == "configs/a./../x.yaml"
  {
  }
}
