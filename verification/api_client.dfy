/** The shared HTTP client's request interceptor and the cookie parser it uses. */
module ApiClient {
  import opened Wrappers
  import opened Models
  import opened Text
  import Seqs

  /** Whether `entry` names the cookie `name`: it must start with `name=`, equals sign included. */
  predicate Names(entry: string, name: string) {
    IsPrefix(name + "=", entry)
  }

  /** `document.cookie.split(';')`, each entry trimmed as the loop reads it. */
  function Entries(cookie: string): (es: seq<string>)
    ensures |es| == |Split(cookie, ';')| >= 1
  {
    var parts := Split(cookie, ';');
    seq(|parts|, k requires 0 <= k < |parts| => Trim(parts[k]))
  }

  /** The loop with its `break`: the decoded value of the first entry naming the cookie. */
  function FirstValue(entries: seq<string>, name: string, decode: string -> string): (r: Option<string>)
    ensures r.Some? <==> exists k :: 0 <= k < |entries| && Names(entries[k], name)
    ensures forall k :: 0 <= k < |entries| && Names(entries[k], name)
                        && (forall j :: 0 <= j < k ==> !Names(entries[j], name)) ==>
              r == Some(decode(entries[k][|name| + 1..]))
  {
    var first := Seqs.FindFirst(entries, (e: string) => Names(e, name));
    if first.None? then None else Some(decode(entries[first.value][|name| + 1..]))
  }

  /**
   * `getCookie(name)` over `document.cookie`; `decode` stands for `decodeURIComponent`.
   * The first entry naming the cookie wins, and its text after `name=` is decoded.
   */
  function GetCookie(cookie: string, name: string, decode: string -> string): (r: Option<string>)
    ensures cookie == "" ==> r.None?
    ensures cookie != "" ==>
      var es := Entries(cookie);
      && (r.Some? <==> exists k :: 0 <= k < |es| && Names(es[k], name))
      && forall k :: 0 <= k < |es| && Names(es[k], name) && (forall j :: 0 <= j < k ==> !Names(es[j], name)) ==>
           r == Some(decode(es[k][|name| + 1..]))
  {
    if cookie == "" then None else FirstValue(Entries(cookie), name, decode)
  }

  /** A string without separators is a single entry. */
  lemma {:induction false} SplitWithoutSeparator(s: string, sep: char)
    requires sep !in s
    ensures Split(s, sep) == [s]
    decreases |s|
  {
    if |s| > 0 {
      assert sep !in s[1..] by {
        forall i | 0 <= i < |s[1..]|
          ensures s[1..][i] != sep
        {
          assert s[1..][i] == s[i + 1];
        }
      }
      SplitWithoutSeparator(s[1..], sep);
      assert [s[0]] + s[1..] == s;
    }
  }

  /** A string with no whitespace at either end is its own trim. */
  lemma TrimUnpadded(s: string)
    requires |s| > 0 && !IsSpace(s[0]) && !IsSpace(s[|s| - 1])
    ensures Trim(s) == s
  {
    assert TrimStart(s) == s;
    assert TrimEnd(s) == s;
  }

  /** A cookie string holding one unpadded entry is read from that entry alone. */
  lemma SingleEntry(cookie: string, name: string, decode: string -> string)
    requires ';' !in cookie
    requires |cookie| > 0 && !IsSpace(cookie[0]) && !IsSpace(cookie[|cookie| - 1])
    ensures GetCookie(cookie, name, decode).Some? <==> Names(cookie, name)
  {
    SplitWithoutSeparator(cookie, ';');
    TrimUnpadded(cookie);
    assert Entries(cookie) == [cookie];
  }

  /** A longer cookie name that merely starts with the wanted one is not taken for it. */
  lemma LongerNameNotMatched(decode: string -> string)
    ensures GetCookie("csrf_token2=abc", "csrf_token", decode).None?
  {
    var cookie := "csrf_token2=abc";
    assert cookie[10] == '2';
    assert ("csrf_token" + "=")[10] == '=';
    assert !Names(cookie, "csrf_token");
    assert ';' !in cookie;
    SingleEntry(cookie, "csrf_token", decode);
  }

  /** The request configuration: only the headers can be touched by the interceptor. */
  datatype Config = Config(httpMethod: string, url: string, headers: map<string, string>)

  const CsrfCookie := "csrf_token"
  const CsrfHeader := "X-CSRF-Token"

  predicate SafeMethod(m: string) {
    m == "get" || m == "head" || m == "options"
  }

  /**
   * The request interceptor: every method but `get`, `head` and `options` gets the
   * `X-CSRF-Token` header when the cookie holds a non-empty token; nothing else changes.
   */
  function Intercept(cfg: Config, cookie: string, decode: string -> string): (r: Config)
    ensures r.(headers := cfg.headers) == cfg
    ensures SafeMethod(cfg.httpMethod) ==> r == cfg
    ensures !SafeMethod(cfg.httpMethod) && !Truthy(GetCookie(cookie, CsrfCookie, decode)) ==> r == cfg
    ensures !SafeMethod(cfg.httpMethod) && Truthy(GetCookie(cookie, CsrfCookie, decode)) ==>
      r.headers == cfg.headers[CsrfHeader := GetCookie(cookie, CsrfCookie, decode).value]
  {
    if SafeMethod(cfg.httpMethod) then cfg
    else
      var token := GetCookie(cookie, CsrfCookie, decode);
      if Truthy(token) then cfg.(headers := cfg.headers[CsrfHeader := token.value]) else cfg
  }

  /** The header is attached exactly to unsafe requests made while a token cookie is set. */
  lemma HeaderOnlyOnUnsafeRequests(cfg: Config, cookie: string, decode: string -> string)
    requires CsrfHeader !in cfg.headers
    ensures CsrfHeader in Intercept(cfg, cookie, decode).headers <==>
      !SafeMethod(cfg.httpMethod) && Truthy(GetCookie(cookie, CsrfCookie, decode))
    ensures cookie == "" ==> Intercept(cfg, cookie, decode) == cfg
  {
  }
}
