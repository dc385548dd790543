// src/core/fonts/index.ts: configureFonts installs the URL resolvers of
// both font back ends, either built from a base URL or supplied by the
// caller, the supplied ones taking precedence.
module FontConfig {
  import opened Types
  import opened FontCommon

  /** `baseUrl.replace(/\/+$/, '')`: the base without its trailing slashes. */
  function StripTrailingSlashes(s: string): (r: string)
    ensures r <= s
    ensures r == [] || r[|r| - 1] != '/'
    ensures forall k :: |r| <= k < |s| ==> s[k] == '/'
  {
    if s != [] && s[|s| - 1] == '/' then StripTrailingSlashes(s[..|s| - 1]) else s
  }

  /** Stripping is idempotent: a stripped base is left alone. */
  lemma StripIdempotent(s: string)
    ensures StripTrailingSlashes(StripTrailingSlashes(s)) == StripTrailingSlashes(s)
  {
  }

  /** Stripping removes slashes only: the base followed by the removed
      slashes is the original string. */
  lemma {:induction false} StripRestoresBySlashes(s: string)
    ensures var r := StripTrailingSlashes(s);
      s == r + seq(|s| - |r|, _ => '/')
  {
    var r := StripTrailingSlashes(s);
    assert s == r + s[|r|..];
    assert s[|r|..] == seq(|s| - |r|, _ => '/');
  }

  /** Bases that differ only in their trailing slashes strip to the same
      base. */
  lemma {:induction false} StripIgnoresExtraSlashes(s: string, n: nat)
    ensures StripTrailingSlashes(s + seq(n, _ => '/')) == StripTrailingSlashes(s)
    decreases n
  {
    if n > 0 {
      var t := s + seq(n, _ => '/');
      assert t[|t| - 1] == '/';
      assert t[..|t| - 1] == s + seq(n - 1, _ => '/');
      StripIgnoresExtraSlashes(s, n - 1);
    } else {
      assert s + seq(n, _ => '/') == s;
    }
  }

  /** The TTF URL under a base: `${base}/${name}.ttf`. */
  function TtfUrl(base: string, fontName: string): (url: string)
    ensures |url| == |base| + |fontName| + 5
    ensures url[..|base|] == base && url[|base|] == '/' && url[|base| + 1..|url| - 4] == fontName
    ensures url[|url| - 4..] == ".ttf"
  {
    base + "/" + fontName + ".ttf"
  }

  /** The BDF URL under a base: `${base}/${file || name}`. */
  function BdfUrl(base: string, fontName: string, fileName: Option<string>): (url: string)
    ensures url == base + "/" + FileOr(fileName, fontName)
    ensures |url| > |base| && url[|base|] == '/'
  {
    base + "/" + FileOr(fileName, fontName)
  }

  /** A stripped base joins to the name with exactly one slash, however many
      trailing slashes the configured base had. */
  lemma SingleSlash(baseUrl: string, fontName: string)
    ensures var base := StripTrailingSlashes(baseUrl);
      var url := TtfUrl(base, fontName);
      url[|base|] == '/' && (base == [] || url[|base| - 1] != '/')
  {
  }

  /** A resolver as installed: the back end's default, one configureFonts
      built from a base URL, or one the caller supplied (identified by a
      tag, since the model cannot look inside a caller's function). */
  datatype Resolver = Default | UnderBase(base: string) | Supplied(tag: nat)

  /** The URL a resolver yields for a TTF font, where the model can say:
      None for a supplied resolver. `window` is location.pathname when there
      is a window. */
  function ResolveTtf(r: Resolver, window: Option<string>, fontName: string): (url: Option<string>)
    ensures r.Supplied? <==> url.None?
    ensures r.UnderBase? ==> url == Some(TtfUrl(r.base, fontName))
    ensures r.Default? && window.None? ==> url == Some("/fonts/" + fontName + ".ttf")
  {
    match r
    case Default =>
      Some(match window
           case None => "/fonts/" + fontName + ".ttf"
           case Some(pathname) => BasePath(pathname) + "fonts/" + fontName + ".ttf")
    case UnderBase(base) => Some(TtfUrl(base, fontName))
    case Supplied(_) => None
  }

  /** The URL a resolver yields for a BDF font file. */
  function ResolveBdf(r: Resolver, window: Option<string>, fontName: string, fileName: Option<string>): (url: Option<string>)
    ensures r.Supplied? <==> url.None?
    ensures r.UnderBase? ==> url == Some(BdfUrl(r.base, fontName, fileName))
    ensures r.Default? && window.None? ==> url == Some("/fonts/" + FileOr(fileName, fontName))
  {
    match r
    case Default =>
      Some(match window
           case None => "/fonts/" + FileOr(fileName, fontName)
           case Some(pathname) => BasePath(pathname) + "fonts/" + FileOr(fileName, fontName))
    case UnderBase(base) => Some(BdfUrl(base, fontName, fileName))
    case Supplied(_) => None
  }

  /** What configureFonts installs, as a function of its options and the
      resolver in place before. */
  function Configured(baseUrl: Option<string>, explicit: Option<Resolver>, before: Resolver): Resolver
  {
    if explicit.Some? then explicit.value
    else if baseUrl.Some? && baseUrl.value != "" then UnderBase(StripTrailingSlashes(baseUrl.value))
    else before
  }

  /** The module-level `_fontResolver` of each back end. */
  class FontSettings {
    var ttf: Resolver
    var bdf: Resolver

    /** Both back ends start with their default resolver. */
    constructor ()
      ensures ttf == Default && bdf == Default
    {
      ttf := Default;
      bdf := Default;
    }

    /** setFontResolver of canvas-font.ts. */
    method SetTtf(r: Resolver)
      modifies this
      ensures ttf == r && bdf == old(bdf)
    {
      ttf := r;
    }

    /** setFontResolver of bdf-font.ts. */
    method SetBdf(r: Resolver)
      modifies this
      ensures bdf == r && ttf == old(ttf)
    {
      bdf := r;
    }

    /** configureFonts: a non-empty baseUrl installs base-URL resolvers for
        both back ends; then each supplied resolver replaces its back end's,
        so a supplied resolver wins over the base URL. A back end with
        neither keeps its resolver. */
    method ConfigureFonts(baseUrl: Option<string>, ttfResolver: Option<Resolver>, bdfResolver: Option<Resolver>)
      modifies this
      ensures ttf == Configured(baseUrl, ttfResolver, old(ttf))
      ensures bdf == Configured(baseUrl, bdfResolver, old(bdf))
    {
      if baseUrl.Some? && baseUrl.value != "" {
        var base := StripTrailingSlashes(baseUrl.value);
        SetTtf(UnderBase(base));
        SetBdf(UnderBase(base));
      }
      if ttfResolver.Some? {
        SetTtf(ttfResolver.value);
      }
      if bdfResolver.Some? {
        SetBdf(bdfResolver.value);
      }
    }
  }

  /** With a base URL and no supplied resolver, the TTF URL of every font is
      the stripped base, one slash, the name and `.ttf`, and never holds a
      doubled slash at the join. */
  lemma BaseUrlTtf(baseUrl: string, before: Resolver, window: Option<string>, fontName: string)
    requires baseUrl != ""
    ensures var base := StripTrailingSlashes(baseUrl);
      ResolveTtf(Configured(Some(baseUrl), None, before), window, fontName) == Some(base + "/" + fontName + ".ttf") &&
      (base == [] || base[|base| - 1] != '/')
  {
  }

  /** A supplied resolver wins, whatever the base URL and the resolver
      before. */
  lemma SuppliedWins(baseUrl: Option<string>, r: Resolver, before: Resolver)
    ensures Configured(baseUrl, Some(r), before) == r
  {
  }

  /** Configuring twice with the same options is the same as configuring
      once. */
  lemma ConfigureIdempotent(baseUrl: Option<string>, explicit: Option<Resolver>, before: Resolver)
    ensures Configured(baseUrl, explicit, Configured(baseUrl, explicit, before)) == Configured(baseUrl, explicit, before)
  {
  }
}
