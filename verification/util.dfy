/**
 * The pure helpers of the service: parsing `k:v;k:v` query strings and
 * cookie headers, scope checks by shell-style globs, and reshaping request
 * validation errors.
 *
 * Dicts are association lists in insertion order (see Collections).
 */
module Util {
  import opened Wrappers
  import opened Collections
  import opened Strings

  // ---------------------------------------------------------------------
  // first

  /** `first(iterable, default)`: the first element, or `default` when there is none. */
  function First<T>(s: seq<T>, default: T): (r: T)
    ensures s != [] ==> r == s[0]
    ensures s == [] ==> r == default
  {
    if s == [] then default else s[0]
  }

  /** Each element wrapped, so that `None` can be the default of `first`. */
  function Somes<T>(s: seq<T>): (r: seq<Option<T>>)
    ensures |r| == |s| && forall i :: 0 <= i < |s| ==> r[i] == Some(s[i])
  {
    seq(|s|, i requires 0 <= i < |s| => Some(s[i]))
  }

  // ---------------------------------------------------------------------
  // parse_dict_str

  /**
   * One item of `parse_dict_str`: the text before the first `kvSep`, and the
   * text after it, or None when the item has no `kvSep`.
   */
  function ItemPair(item: string, kvSep: char): (p: (string, Option<string>))
    ensures kvSep !in p.0
    ensures p.1.None? <==> kvSep !in item
    ensures p.1.None? ==> p.0 == item
    ensures p.1.Some? ==> item == p.0 + [kvSep] + p.1.value
  {
    var parts := SplitOnce(item, kvSep);
    (parts[0], First(Somes(parts[1..]), None))
  }

  function ItemPairs(items: seq<string>, kvSep: char): (ps: seq<(string, Option<string>)>)
    ensures |ps| == |items| && forall i :: 0 <= i < |items| ==> ps[i] == ItemPair(items[i], kvSep)
  {
    seq(|items|, i requires 0 <= i < |items| => ItemPair(items[i], kvSep))
  }

  /**
   * `parse_dict_str(value, itemsep, kvsep)`: None and the empty string give
   * an empty dict; otherwise one key per item, in order of first appearance.
   */
  function ParseDictStr(value: Option<string>, itemSep: char, kvSep: char): (d: seq<(string, Option<string>)>)
    ensures value == None || value == Some("") ==> d == []
    ensures value.Some? && value.value != "" ==>
      Keys(d) == Distinct(Keys(ItemPairs(Split(value.value, itemSep), kvSep)))
  {
    if value.None? || value.value == "" then []
    else DictFromPairs(ItemPairs(Split(value.value, itemSep), kvSep))
  }

  /** A key repeated in the text takes the value of its last item. */
  lemma ParseDictStrLookup(value: string, itemSep: char, kvSep: char, k: string)
    requires value != ""
    ensures Lookup(ParseDictStr(Some(value), itemSep, kvSep), k)
         == LastValue(ItemPairs(Split(value, itemSep), kvSep), k)
  {
    DictFromPairsLookup(ItemPairs(Split(value, itemSep), kvSep), k);
  }

  /** The text of one item: the key, then `kvSep` and the value if there is one. */
  function FormatItem(p: (string, Option<string>), kvSep: char): string
  {
    if p.1.None? then p.0 else p.0 + [kvSep] + p.1.value
  }

  /** An item reads back as the pair it was written from. */
  lemma ItemPairFormatItem(p: (string, Option<string>), kvSep: char)
    requires kvSep !in p.0
    ensures ItemPair(FormatItem(p, kvSep), kvSep) == p
  {
    if p.1.Some? {
      SplitOnceAround(p.0, p.1.value, kvSep);
    }
  }

  /** The inverse of `parse_dict_str`: items joined by `itemSep`. */
  function FormatDictStr(d: seq<(string, Option<string>)>, itemSep: char, kvSep: char): string
  {
    Join(seq(|d|, i requires 0 <= i < |d| => FormatItem(d[i], kvSep)), itemSep)
  }

  /** The pairs `FormatDictStr` can write so that `parse_dict_str` reads them back. */
  predicate Writable(d: seq<(string, Option<string>)>, itemSep: char, kvSep: char)
  {
    && itemSep != kvSep
    && NoDuplicates(Keys(d))
    && d != [] && d != [("", None)]
    && forall i :: 0 <= i < |d| ==>
         itemSep !in d[i].0 && kvSep !in d[i].0 && (d[i].1.Some? ==> itemSep !in d[i].1.value)
  }

  /** `parse_dict_str` reads back every dict with distinct, separator-free keys. */
  lemma ParseFormatDictStr(d: seq<(string, Option<string>)>, itemSep: char, kvSep: char)
    requires Writable(d, itemSep, kvSep)
    ensures ParseDictStr(Some(FormatDictStr(d, itemSep, kvSep)), itemSep, kvSep) == d
  {
    var items := seq(|d|, i requires 0 <= i < |d| => FormatItem(d[i], kvSep));
    var s := FormatDictStr(d, itemSep, kvSep);
    assert s == Join(items, itemSep);
    FormattedItems(d, itemSep, kvSep, items);
    SplitJoin(items, itemSep);
    JoinNonEmpty(items, itemSep);
    DictFromPairsDistinct(d);
  }

  lemma FormattedItems(d: seq<(string, Option<string>)>, itemSep: char, kvSep: char, items: seq<string>)
    requires Writable(d, itemSep, kvSep)
    requires |items| == |d| && forall i :: 0 <= i < |d| ==> items[i] == FormatItem(d[i], kvSep)
    ensures forall i :: 0 <= i < |items| ==> itemSep !in items[i]
    ensures items != [] && (|items| == 1 ==> items[0] != "")
    ensures ItemPairs(items, kvSep) == d
  {
    forall i | 0 <= i < |d| ensures itemSep !in items[i] && ItemPair(items[i], kvSep) == d[i] {
      ItemPairFormatItem(d[i], kvSep);
    }
  }

  // ---------------------------------------------------------------------
  // parse_cookie_header

  /** `dict()` refuses a sequence element that is not a pair: the index of the first piece without `=`. */
  datatype CookieError = NotAPair(index: nat)

  /** The `;`-separated pieces of a header, each stripped of white space. */
  function CookiePieces(value: string): (ps: seq<string>)
    ensures |ps| == |Split(value, ';')|
    ensures forall i :: 0 <= i < |ps| ==> ps[i] == Strip(Split(value, ';')[i])
  {
    var pieces := Split(value, ';');
    seq(|pieces|, i requires 0 <= i < |pieces| => Strip(pieces[i]))
  }

  /**
   * `piece.split("=", 1)` for every piece, failing at the first piece that
   * has no `=`.
   */
  function CookiePairs(ps: seq<string>): (r: Result<seq<(string, string)>, CookieError>)
    ensures r.Failure? <==> exists i :: 0 <= i < |ps| && '=' !in ps[i]
    ensures r.Failure? ==>
      && r.error.index < |ps| && '=' !in ps[r.error.index]
      && forall i :: 0 <= i < r.error.index ==> '=' in ps[i]
    ensures r.Success? ==> |r.value| == |ps| && forall i :: 0 <= i < |ps| ==>
                             var parts := SplitOnce(ps[i], '='); r.value[i] == (parts[0], parts[1])
  {
    if ps == [] then Success([])
    else if '=' !in ps[0] then Failure(NotAPair(0))
    else
      var parts := SplitOnce(ps[0], '=');
      match CookiePairs(ps[1..])
      case Failure(NotAPair(i)) => Failure(NotAPair(i + 1))
      case Success(rest) => Success([(parts[0], parts[1])] + rest)
  }

  /**
   * `parse_cookie_header(value)`: None gives an empty dict; otherwise the
   * stripped pieces split at their first `=`, keyed in order of first
   * appearance, or the error of the first piece without `=`.
   */
  function ParseCookieHeader(value: Option<string>): (r: Result<seq<(string, string)>, CookieError>)
    ensures value.None? ==> r == Success([])
    ensures value.Some? ==> r.Success? == CookiePairs(CookiePieces(value.value)).Success?
    ensures value.Some? && r.Failure? ==> r == CookiePairs(CookiePieces(value.value))
    ensures value.Some? && r.Success? ==>
      Keys(r.value) == Distinct(Keys(CookiePairs(CookiePieces(value.value)).value))
  {
    if value.None? then Success([])
    else
      match CookiePairs(CookiePieces(value.value))
      case Failure(e) => Failure(e)
      case Success(pairs) => Success(DictFromPairs(pairs))
  }

  /** A cookie named twice in the header takes the value of its last piece. */
  lemma ParseCookieHeaderLookup(value: string, k: string)
    requires ParseCookieHeader(Some(value)).Success?
    ensures Lookup(ParseCookieHeader(Some(value)).value, k)
         == LastValue(CookiePairs(CookiePieces(value)).value, k)
  {
    DictFromPairsLookup(CookiePairs(CookiePieces(value)).value, k);
  }

  /** A header ending in `;` has an empty last piece, which is not a pair. */
  lemma TrailingSemicolonRejected(value: string)
    requires |value| > 0 && value[|value| - 1] == ';'
    ensures ParseCookieHeader(Some(value)).Failure?
  {
    var pieces := Split(value, ';');
    var n := |pieces| - 1;
    SplitTrailing(value, ';');
    assert pieces[n] == "";
    var ps := CookiePieces(value);
    assert ps[n] == Strip(pieces[n]);
    assert ps[n] == "";
    NotAPairRejected(ps, n);
  }

  lemma NotAPairRejected(ps: seq<string>, i: nat)
    requires i < |ps| && '=' !in ps[i]
    ensures CookiePairs(ps).Failure?
  {
  }

  // ---------------------------------------------------------------------
  // is_authorized

  /**
   * `fnmatch(name, pattern)` with the wildcards `*` (any run of characters)
   * and `?` (any one character); every other character stands for itself.
   */
  predicate GlobMatch(name: string, pattern: string)
    ensures '*' !in pattern && GlobMatch(name, pattern) ==> |name| == |pattern|
    decreases |name| + |pattern|
  {
    if pattern == [] then name == []
    else if pattern[0] == '*' then
      GlobMatch(name, pattern[1..]) || (name != [] && GlobMatch(name[1..], pattern))
    else
      name != [] && (pattern[0] == '?' || pattern[0] == name[0]) && GlobMatch(name[1..], pattern[1..])
  }

  /** A pattern without wildcards. */
  predicate Literal(p: string)
  {
    '*' !in p && '?' !in p
  }

  /** A literal pattern matches only itself. */
  lemma {:induction false} GlobLiteral(name: string, pattern: string)
    requires Literal(pattern)
    ensures GlobMatch(name, pattern) <==> name == pattern
  {
    if pattern != [] && name != [] {
      GlobLiteral(name[1..], pattern[1..]);
      if name[1..] == pattern[1..] && name[0] == pattern[0] {
        assert name == [name[0]] + name[1..] && pattern == [pattern[0]] + pattern[1..];
      }
    }
  }

  /** `*` matches every name. */
  lemma {:induction false} GlobStar(name: string)
    ensures GlobMatch(name, "*")
  {
    if name != [] {
      GlobStar(name[1..]);
    }
  }

  /** `prefix*` matches exactly the names that start with the literal `prefix`. */
  lemma {:induction false} GlobPrefixStar(name: string, prefix: string)
    requires Literal(prefix)
    ensures GlobMatch(name, prefix + "*") <==> prefix <= name
  {
    if prefix == [] {
      assert prefix + "*" == "*";
      GlobStar(name);
    } else if name != [] {
      assert (prefix + "*")[1..] == prefix[1..] + "*";
      GlobPrefixStar(name[1..], prefix[1..]);
    }
  }

  /** `*suffix` matches exactly the names that end with the literal `suffix`. */
  lemma {:induction false} GlobStarSuffix(name: string, suffix: string)
    requires Literal(suffix)
    ensures GlobMatch(name, "*" + suffix) <==> |suffix| <= |name| && name[|name| - |suffix|..] == suffix
    decreases |name|
  {
    var pattern := "*" + suffix;
    assert pattern[0] == '*' && pattern[1..] == suffix;
    assert GlobMatch(name, pattern) <==> GlobMatch(name, suffix) || (name != [] && GlobMatch(name[1..], pattern));
    GlobLiteral(name, suffix);
    if name != [] {
      GlobStarSuffix(name[1..], suffix);
      if |suffix| <= |name| - 1 {
        assert name[|name| - |suffix|..] == name[1..][|name[1..]| - |suffix|..];
      }
      if |suffix| == |name| {
        assert name[|name| - |suffix|..] == name;
      }
    }
  }

  /** `is_authorized(scopes, required_scope)`: some granted scope matches the required one. */
  predicate IsAuthorized(scopes: seq<string>, required: string)
    ensures IsAuthorized(scopes, required) <==> exists i :: 0 <= i < |scopes| && GlobMatch(required, scopes[i])
  {
    if scopes == [] then false
    else GlobMatch(required, scopes[0]) || IsAuthorized(scopes[1..], required)
  }

  /** No scopes, no access. */
  lemma NoScopesDenied(required: string)
    ensures !IsAuthorized([], required)
  {
  }

  /** The scope `*` grants every action on every resource. */
  lemma StarGrantsAll(scopes: seq<string>, required: string)
    requires "*" in scopes
    ensures IsAuthorized(scopes, required)
  {
    GlobStar(required);
  }

  /** The scope `<resource>.*` grants every action on that resource, and nothing outside it. */
  lemma ResourceWildcard(resource: string, required: string)
    requires Literal(resource)
    ensures IsAuthorized([resource + ".*"], required) <==> resource + "." <= required
  {
    AuthorizedByOne(resource + ".*", required);
    assert resource + ".*" == (resource + ".") + "*";
    GlobPrefixStar(required, resource + ".");
  }

  /** The scope `*.<action>` grants that action on every resource, and nothing else. */
  lemma ActionWildcard(action: string, required: string)
    requires Literal(action)
    ensures IsAuthorized(["*." + action], required) <==>
      var suffix := "." + action;
      |suffix| <= |required| && required[|required| - |suffix|..] == suffix
  {
    var suffix := "." + action;
    AuthorizedByOne("*." + action, required);
    assert "*." + action == "*" + suffix;
    GlobStarSuffix(required, suffix);
  }

  lemma AuthorizedByOne(scope: string, required: string)
    ensures IsAuthorized([scope], required) <==> GlobMatch(required, scope)
  {
    assert [scope][1..] == [];
  }

  // ---------------------------------------------------------------------
  // format_validation_errors

  /** An element of a pydantic error location: a field name or a list index. */
  datatype LocItem = LocStr(name: string) | LocInt(index: int)

  /** A pydantic error record: `loc`, `msg` and `type`. */
  datatype PydanticError = PydanticError(loc: seq<LocItem>, msg: string, kind: string)

  /** The reshaped error: `path`, `message` and `type`. */
  datatype FormattedError = FormattedError(path: string, message: string, kind: string)

  function DigitChar(d: nat): (c: char)
    requires d < 10
    ensures '0' <= c <= '9'
  {
    "0123456789"[d]
  }

  function NatDigits(n: nat): (s: string)
    ensures |s| >= 1 && forall k :: 0 <= k < |s| ==> '0' <= s[k] <= '9'
  {
    if n < 10 then [DigitChar(n)] else NatDigits(n / 10) + [DigitChar(n % 10)]
  }

  /** `str(n)` for an integer: its decimal digits, after `-` when negative. */
  function DecimalString(n: int): (s: string)
    ensures |s| >= 1 && '/' !in s
    ensures forall k :: 0 <= k < |s| ==> s[k] == '-' || '0' <= s[k] <= '9'
  {
    if n < 0 then "-" + NatDigits(-n) else NatDigits(n)
  }

  /** `str(it)` for a location element. */
  function LocText(l: LocItem): string
  {
    match l
    case LocStr(name) => name
    case LocInt(index) => DecimalString(index)
  }

  function LocTexts(loc: seq<LocItem>): (ts: seq<string>)
    ensures |ts| == |loc| && forall i :: 0 <= i < |loc| ==> ts[i] == LocText(loc[i])
  {
    seq(|loc|, i requires 0 <= i < |loc| => LocText(loc[i]))
  }

  /** `"/" + "/".join(str(it) for it in loc[1:])`: the first element, the model name, is dropped. */
  function ErrorPath(loc: seq<LocItem>): (p: string)
    ensures |p| >= 1 && p[0] == '/'
    ensures |loc| <= 1 ==> p == "/"
  {
    if loc == [] then "/" else "/" + Join(LocTexts(loc[1..]), '/')
  }

  /** `format_validation_errors(errors)`: one reshaped error per error, in order. */
  function FormatValidationErrors(errors: seq<PydanticError>): (r: seq<FormattedError>)
    ensures |r| == |errors|
    ensures forall i :: 0 <= i < |errors| ==>
      r[i].message == errors[i].msg && r[i].kind == errors[i].kind && r[i].path == ErrorPath(errors[i].loc)
  {
    seq(|errors|, i requires 0 <= i < |errors| =>
      FormattedError(ErrorPath(errors[i].loc), errors[i].msg, errors[i].kind))
  }

  /**
   * The path of a location of two or more elements, after its leading `/`,
   * splits at `/` back into the texts of all elements but the first, when
   * no field name contains `/`.
   */
  lemma ErrorPathSplits(loc: seq<LocItem>)
    requires |loc| >= 2
    requires forall i :: 1 <= i < |loc| ==> '/' !in LocText(loc[i])
    ensures Split(ErrorPath(loc)[1..], '/') == LocTexts(loc[1..])
  {
    var ts := LocTexts(loc[1..]);
    assert forall i :: 0 <= i < |ts| ==> ts[i] == LocText(loc[i + 1]);
    assert ErrorPath(loc)[1..] == Join(ts, '/');
    SplitJoin(ts, '/');
  }
}
