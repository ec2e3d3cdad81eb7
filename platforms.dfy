/** The platform tables of the CLI and the three option validators that
    Commander calls on `--platform` and `--format`. Each validator lower-cases
    its argument and either returns it, when it names a member of a fixed
    set, or fails with an invalid-option-argument error. */
module Platforms {
  import opened Wrappers
  import opened Text

  /** Login configuration of one platform for the `cookie` command. */
  datatype CookiePlatform = CookiePlatform(
    url: string,        // login page opened in the browser
    domain: string,     // cookie-domain suffix kept by the capture
    required: seq<string>,  // cookie names that signal a completed login
    tips: string)

  /** `SUPPORTED_PLATFORMS`, the catalogs the download commands accept. */
  const SupportedPlatforms: seq<string> := ["netease", "tencent", "kugou", "baidu", "kuwo"]

  /** `COOKIE_PLATFORMS`, keyed by platform name. */
  const CookiePlatforms: map<string, CookiePlatform> := map[
    "netease" := CookiePlatform("https://music.163.com/", ".163.com", ["MUSIC_U"], "请登录网易云~"),
    "tencent" := CookiePlatform("https://y.qq.com/", ".qq.com", ["uin"], "请登录QQ音乐~"),
    "kugou" := CookiePlatform("https://www.kugou.com/", ".kugou.com", [], "请登录酷狗音乐~"),
    "baidu" := CookiePlatform("https://music.baidu.com/", ".baidu.com", ["BDUSS"], "请登录百度音乐~"),
    "kuwo" := CookiePlatform("https://www.kuwo.cn/", ".kuwo.cn", [], "请登录酷我音乐~")
  ]

  /** The values `--format` accepts. */
  const CookieFormats: seq<string> := ["header", "json"]

  /** The names every plain JavaScript object inherits from
      `Object.prototype`; looking one of them up in an object literal yields
      a truthy value although the literal never defined it. */
  const ObjectPrototypeNames: set<string> := {
    "constructor", "__proto__", "__defineGetter__", "__defineSetter__",
    "__lookupGetter__", "__lookupSetter__", "hasOwnProperty", "isPrototypeOf",
    "propertyIsEnumerable", "toString", "toLocaleString", "valueOf"
  }

  datatype OptionError = InvalidOptionArgument(message: string)

  const UnsupportedPlatform := "Unsupported platform. Available: netease, tencent, kugou, baidu, kuwo"
  const UnsupportedFormat := "format must be \"header\" or \"json\""

  /** The shape shared by the three validators: lower-case, then accept
      exactly the members of `allowed`. */
  function Choose(raw: string, allowed: set<string>, message: string): (r: Result<string, OptionError>)
  {
    var value := Lower(raw);
    if value in allowed then Ok(value) else Err(InvalidOptionArgument(message))
  }

  /** A choice ignores the case of its argument, and an accepted value is
      lower-case, belongs to the allowed set and is accepted again unchanged. */
  lemma ChooseSpec(raw: string, allowed: set<string>, message: string)
    ensures Choose(raw, allowed, message).Ok? <==> Lower(raw) in allowed
    ensures Choose(Lower(raw), allowed, message) == Choose(raw, allowed, message)
    ensures Choose(raw, allowed, message).Ok? ==>
              var v := Choose(raw, allowed, message).value;
              v in allowed && Lower(v) == v && Choose(v, allowed, message) == Ok(v)
  {
    LowerIdempotent(raw);
  }

  /** `ensurePlatform`. */
  function EnsurePlatform(platform: string): (r: Result<string, OptionError>)
    ensures r.Ok? <==> Lower(platform) in SupportedPlatforms
    ensures r.Ok? ==> r.value in SupportedPlatforms && r.value == Lower(platform)
    ensures r.Err? ==> r.error.message == UnsupportedPlatform
  {
    Choose(platform, (set p | p in SupportedPlatforms), UnsupportedPlatform)
  }

  /** `ensureCookiePlatform` as the source writes it: the lookup
      `COOKIE_PLATFORMS[lower]` is also truthy for the inherited
      `Object.prototype` names. */
  function EnsureCookiePlatformAsWritten(platform: string): (r: Result<string, OptionError>)
    ensures r.Ok? <==> Lower(platform) in CookiePlatforms || Lower(platform) in ObjectPrototypeNames
  {
    Choose(platform, CookiePlatforms.Keys + ObjectPrototypeNames, UnsupportedPlatform)
  }

  /** Lower-casing comes first, so of the inherited names only the two that
      hold no upper-case letter get through: `constructor` and `__proto__`.
      `--platform hasOwnProperty` and the other mixed-case names are rejected. */
  lemma OnlyLowerCasePrototypeNamesPass(platform: string)
    ensures EnsureCookiePlatformAsWritten(platform).Ok? <==>
              Lower(platform) in CookiePlatforms || Lower(platform) == "constructor" || Lower(platform) == "__proto__"
  {
    MixedCasePrototypeNames();
    LowerHasNoUpper(platform);
  }

  /** `s` holds an upper-case ASCII letter. */
  predicate HasUpper(s: string)
  {
    exists i :: 0 <= i < |s| && 'A' <= s[i] <= 'Z'
  }

  /** A lower-cased string holds no upper-case ASCII letter. */
  lemma LowerHasNoUpper(s: string)
    ensures !HasUpper(Lower(s))
  {
    forall i | 0 <= i < |s| ensures !('A' <= Lower(s)[i] <= 'Z') {
      assert Lower(s)[i] == LowerChar(s[i]);
    }
  }

  /** Every inherited name other than `constructor` and `__proto__` holds an
      upper-case letter. */
  lemma MixedCasePrototypeNames()
    ensures forall n :: n in ObjectPrototypeNames && n != "constructor" && n != "__proto__" ==> HasUpper(n)
  {
    assert "__defineGetter__"[8] == 'G';
    assert "__defineSetter__"[8] == 'S';
    assert "__lookupGetter__"[8] == 'G';
    assert "__lookupSetter__"[8] == 'S';
    assert "hasOwnProperty"[3] == 'O';
    assert "isPrototypeOf"[2] == 'P';
    assert "propertyIsEnumerable"[8] == 'I';
    assert "toString"[2] == 'S';
    assert "toLocaleString"[2] == 'L';
    assert "valueOf"[5] == 'O';
  }

  /** As written, `--platform constructor` and `--platform __proto__` are
      accepted although no login configuration exists for them. */
  lemma PrototypeNamesAcceptedAsWritten()
    ensures EnsureCookiePlatformAsWritten("constructor") == Ok("constructor")
    ensures EnsureCookiePlatformAsWritten("__proto__") == Ok("__proto__")
    ensures "constructor" !in CookiePlatforms && "__proto__" !in CookiePlatforms
  {
    assert Lower("constructor") == "constructor";
    assert Lower("__proto__") == "__proto__";
  }

  /** `ensureCookiePlatform` with the evidently intended own-key lookup. */
  function EnsureCookiePlatform(platform: string): (r: Result<string, OptionError>)
    ensures r.Ok? <==> Lower(platform) in CookiePlatforms
    ensures r.Ok? ==> r.value in CookiePlatforms && r.value == Lower(platform)
  {
    Choose(platform, CookiePlatforms.Keys, UnsupportedPlatform)
  }

  /** With the own-key lookup the cookie command accepts exactly the
      platforms the download commands accept, so every accepted name has a
      login configuration. */
  lemma CookiePlatformsAreSupported(platform: string)
    ensures EnsureCookiePlatform(platform) == EnsurePlatform(platform)
  {
    assert CookiePlatforms.Keys == set p | p in SupportedPlatforms;
  }

  /** `validateCookieFormat`. */
  function ValidateCookieFormat(format: string): (r: Result<string, OptionError>)
    ensures r.Ok? <==> Lower(format) == "header" || Lower(format) == "json"
    ensures r.Ok? ==> r.value == Lower(format)
    ensures r.Err? ==> r.error.message == UnsupportedFormat
  {
    Choose(format, (set f | f in CookieFormats), UnsupportedFormat)
  }
}
