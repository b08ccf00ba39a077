/** The settings defaults and the two settings validators. A settings
    object is the map of its attributes: the defaults, overridden by the
    project's own settings module. The validators read one attribute
    (None when it is missing) and raise an Exception on a bad value. */
module VankConfig {
  import opened Wrappers
  import opened Text

  /** The attribute values the validators and defaults distinguish. */
  datatype PyValue =
    | PyNone
    | PyStr(s: string)
    | PyInt(i: int)
    | PyList(items: seq<PyValue>)
    | PyDict(entries: map<string, PyValue>)
    | PyObject(typeName: string)

  /** `type(v).__name__`. */
  function TypeName(v: PyValue): string {
    match v
    case PyNone => "NoneType"
    case PyStr(_) => "str"
    case PyInt(_) => "int"
    case PyList(_) => "list"
    case PyDict(_) => "dict"
    case PyObject(name) => name
  }

  /** The class attributes of `BaseSettings`. */
  function BaseSettings(): (r: map<string, PyValue>)
    ensures r.Keys == {"PROJECT_BASE_DIR", "SECRET_KEY", "ROUTE_CONVERTERS", "MIDDLEWARES", "ERROR_HANDLER", "LOGGING"}
  {
    map["PROJECT_BASE_DIR" := PyStr(""), "SECRET_KEY" := PyStr(""), "ROUTE_CONVERTERS" := PyDict(map[]),
        "MIDDLEWARES" := PyList([]), "ERROR_HANDLER" := PyStr(""), "LOGGING" := PyDict(map[])]
  }

  /** A project's settings: its own attributes over the defaults. */
  function Settings(overrides: map<string, PyValue>): map<string, PyValue> {
    BaseSettings() + overrides
  }

  /** `getattr(sender, name, None)`. */
  function Attr(sender: map<string, PyValue>, name: string): (r: PyValue)
    ensures name in sender ==> r == sender[name]
    ensures name !in sender ==> r == PyNone
  {
    if name in sender then sender[name] else PyNone
  }

  /** The reasons a validator raises. */
  datatype ConfigError = NotAString(typeName: string) | SecretTooShort | StaticUrlSlash

  /** `check_secret_key(sender)`: the secret must be a str longer than 15
      characters. */
  function CheckSecretKey(sender: map<string, PyValue>): (r: Option<ConfigError>)
    ensures r.None? <==> Attr(sender, "SECRET_KEY").PyStr? && |Attr(sender, "SECRET_KEY").s| > 15
    ensures !Attr(sender, "SECRET_KEY").PyStr? ==> r == Some(NotAString(TypeName(Attr(sender, "SECRET_KEY"))))
    ensures Attr(sender, "SECRET_KEY").PyStr? && |Attr(sender, "SECRET_KEY").s| <= 15 ==> r == Some(SecretTooShort)
  {
    match Attr(sender, "SECRET_KEY")
    case PyStr(secret) => if !(|secret| > 15) then Some(SecretTooShort) else None
    case other => Some(NotAString(TypeName(other)))
  }

  /** `check_static_url(sender)`: the URL must be a str, and the check of
      its slashes fails only when it neither starts nor ends with `/`. */
  function CheckStaticUrl(sender: map<string, PyValue>): (r: Option<ConfigError>)
    ensures !Attr(sender, "STATIC_URL").PyStr? ==> r == Some(NotAString(TypeName(Attr(sender, "STATIC_URL"))))
    ensures Attr(sender, "STATIC_URL").PyStr? ==>
              var url := Attr(sender, "STATIC_URL").s;
              (r.None? <==> StartsWith(url, "/") || EndsWith(url, "/")) && (r.Some? ==> r.value == StaticUrlSlash)
  {
    match Attr(sender, "STATIC_URL")
    case PyStr(url) => if !StartsWith(url, "/") && !EndsWith(url, "/") then Some(StaticUrlSlash) else None
    case other => Some(NotAString(TypeName(other)))
  }

  /** A project that sets no secret fails the secret check with the
      default, the empty text, and one that sets no static URL fails the
      static check as NoneType: the defaults alone are never valid. */
  lemma DefaultsRejected(overrides: map<string, PyValue>)
    ensures "SECRET_KEY" !in overrides ==> CheckSecretKey(Settings(overrides)) == Some(SecretTooShort)
    ensures "STATIC_URL" !in overrides ==> CheckStaticUrl(Settings(overrides)) == Some(NotAString("NoneType"))
  {
    assert "SECRET_KEY" in BaseSettings() && BaseSettings()["SECRET_KEY"] == PyStr("");
    assert "STATIC_URL" !in BaseSettings().Keys;
  }

  /** A project's own secret decides the secret check: the defaults play
      no part once it is set. */
  lemma OverrideDecides(overrides: map<string, PyValue>)
    requires "SECRET_KEY" in overrides
    ensures CheckSecretKey(Settings(overrides)) == CheckSecretKey(overrides)
  {
  }

  /** A missing secret, as after `del`, fails as NoneType; any str of 16
      characters or more passes. */
  lemma SecretBoundary(secret: string)
    ensures CheckSecretKey(map[]) == Some(NotAString("NoneType"))
    ensures CheckSecretKey(map["SECRET_KEY" := PyStr(secret)]) == (if |secret| >= 16 then None else Some(SecretTooShort))
  {
  }
}
