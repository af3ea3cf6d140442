/**
 * Lenient coercions from untyped property-bag values into the typed values the
 * aggregation works on. None of them fails: a malformed value simply yields
 * "absent" (`None`), an empty list, or a default.
 */
module Coercion {
  import opened Optional
  import opened Js

  /**
   * `toNumber`: a finite number, or a string that `Number` parses to a finite
   * number; anything else (NaN, infinities, other types) is absent.
   */
  function ToNumber(host: Host, v: Value): (r: Option<real>)
    ensures r.Some? <==>
      (v.Number? && v.n.Finite?) || (v.Str? && host.numberOf(v.s).Finite?)
    ensures r.Some? && v.Number? ==> v.n == Finite(r.value)
    ensures r.Some? && v.Str? ==> host.numberOf(v.s) == Finite(r.value)
  {
    match v
    case Number(Finite(x)) => Some(x)
    case Str(s) => if host.numberOf(s).Finite? then Some(host.numberOf(s).v) else None
    case _ => None
  }

  /** A string the engine hands to the URL parser rather than splitting itself. */
  predicate IsAbsoluteUrl(s: string) {
    StartsWith(s, "http://") || StartsWith(s, "https://")
  }

  /**
   * `extractPath`: the path of an absolute http(s) URL, or the part of a
   * relative URL before its query string; "/" stands in for an empty path.
   * Non-strings, blank strings and URLs the parser rejects give no path.
   */
  function ExtractPath(host: Host, v: Value): (r: Option<string>)
    ensures r.None? <==>
      || !v.Str?
      || Trim(v.s) == []
      || (IsAbsoluteUrl(v.s) && host.urlPathname(v.s).None?)
    ensures r.Some? ==> |r.value| > 0
    ensures r.Some? && !IsAbsoluteUrl(v.s) ==>
      && '?' !in r.value
      && (|| (StartsWith(v.s, r.value) && (|r.value| == |v.s| || v.s[|r.value|] == '?'))
          || (r.value == "/" && v.s[0] == '?'))
    ensures r.Some? && IsAbsoluteUrl(v.s) && host.urlPathname(v.s).value != [] ==>
      r.value == host.urlPathname(v.s).value
    ensures v.Str? && IsAbsoluteUrl(v.s) && host.urlPathname(v.s) == Some([]) ==> r == Some("/")
  {
    if !v.Str? then None
    else
      AbsoluteUrlNotBlank(v.s);
      if Trim(v.s) == [] then None
      else if IsAbsoluteUrl(v.s) then
        match host.urlPathname(v.s)
        case None => None
        case Some(p) => Some(if p == [] then "/" else p)
      else
        var p := BeforeFirst(v.s, '?');
        Some(if p == [] then "/" else p)
  }

  /** An absolute URL starts with a letter, so it is never blank. */
  lemma AbsoluteUrlNotBlank(s: string)
    ensures IsAbsoluteUrl(s) ==> !IsBlank(s) && Trim(s) != []
  {
    if IsAbsoluteUrl(s) {
      assert s[0] == s[..7][0];
      assert !IsWhitespace(s[0]);
    }
  }

  /**
   * A query string never changes the path of a relative URL: the path of
   * `p?q` is `p` itself, for any `p` that is neither blank nor absolute.
   */
  lemma QueryIgnored(host: Host, p: string, q: string)
    requires '?' !in p && !IsBlank(p) && !IsAbsoluteUrl(p)
    ensures ExtractPath(host, Str(p)) == Some(p)
    ensures ExtractPath(host, Str(p + "?" + q)) == Some(p)
  {
    var s := p + "?" + q;
    assert s[|p|] == '?';
    assert s[..|p|] == p;
    NotAbsoluteWithQuery(p, q);
    assert !IsBlank(s) by {
      var i :| 0 <= i < |p| && !IsWhitespace(p[i]);
      assert s[i] == p[i];
    }
    BeforeQuery(s, p);
    BeforeQuery(p, p);
  }

  /** The part before the first `?` of a string that continues a `?`-free prefix with `?`. */
  lemma BeforeQuery(s: string, p: string)
    requires StartsWith(s, p) && '?' !in p && (|p| == |s| || s[|p|] == '?')
    ensures BeforeFirst(s, '?') == p
  {
    var r := BeforeFirst(s, '?');
    assert r == s[..|r|];
  }

  /** Appending a query to a relative URL cannot make it absolute. */
  lemma NotAbsoluteWithQuery(p: string, q: string)
    requires '?' !in p && !IsAbsoluteUrl(p)
    ensures !IsAbsoluteUrl(p + "?" + q)
  {
    var s := p + "?" + q;
    if |p| >= 8 {
      assert s[..8] == p[..8];
      assert s[..7] == p[..7];
    } else {
      assert s[|p|] == '?';
      if |p| == 7 {
        assert s[..7] == p;
      }
    }
  }

  /**
   * `toHttpMethod`: the trimmed, upper-cased method string; "GET" for a
   * non-string or blank value.
   */
  function ToHttpMethod(v: Value): (r: string)
    ensures |r| > 0
    ensures HasNoLower(r)
    ensures !IsWhitespace(r[0]) && !IsWhitespace(r[|r| - 1])
    ensures !v.Str? || Trim(v.s) == [] ==> r == "GET"
    ensures v.Str? && Trim(v.s) != [] ==> |r| == |Trim(v.s)| && ToLower(r) == ToLower(Trim(v.s))
  {
    if !v.Str? then "GET"
    else
      var m := ToUpper(Trim(v.s));
      UpperShape(Trim(v.s));
      LowerOfUpper(Trim(v.s));
      if m == [] then "GET" else m
  }

  /** Upper-casing loses nothing but case: lower-casing undoes it. */
  lemma LowerOfUpper(s: string)
    ensures ToLower(ToUpper(s)) == ToLower(s)
  {
    var a := ToLower(ToUpper(s));
    var b := ToLower(s);
    forall i | 0 <= i < |s| ensures a[i] == b[i] {
      LowerOfUpperChar(s[i]);
    }
  }

  lemma LowerOfUpperChar(c: char)
    ensures LowerChar(UpperChar(c)) == LowerChar(c)
  {
  }

  /** Upper-casing never turns a non-whitespace character into whitespace or back. */
  lemma UpperCharKeepsWhitespace(c: char)
    ensures IsWhitespace(UpperChar(c)) <==> IsWhitespace(c)
  {
  }

  /** Upper-casing leaves no lower-case letter and keeps whitespace at both ends as it was. */
  lemma UpperShape(s: string)
    ensures HasNoLower(ToUpper(s))
    ensures |s| > 0 ==>
      && (IsWhitespace(ToUpper(s)[0]) <==> IsWhitespace(s[0]))
      && (IsWhitespace(ToUpper(s)[|s| - 1]) <==> IsWhitespace(s[|s| - 1]))
  {
    var u := ToUpper(s);
    forall i | 0 <= i < |u| ensures !('a' <= u[i] <= 'z') {
      UpperCharNotLower(s[i]);
    }
    if |s| > 0 {
      UpperCharKeepsWhitespace(s[0]);
      UpperCharKeepsWhitespace(s[|s| - 1]);
    }
  }

  lemma UpperCharNotLower(c: char)
    ensures !('a' <= UpperChar(c) <= 'z')
  {
  }

  /** Upper-casing an upper-case string changes nothing. */
  lemma {:induction false} UpperOfUpper(s: string)
    requires HasNoLower(s)
    ensures ToUpper(s) == s
  {
    if s != [] {
      UpperOfUpper(s[1..]);
      assert ToUpper(s) == [UpperChar(s[0])] + ToUpper(s[1..]);
    }
  }

  /** A method name produced by `toHttpMethod` is already normal: normalising it again changes nothing. */
  lemma ToHttpMethodIdempotent(v: Value)
    ensures ToHttpMethod(Str(ToHttpMethod(v))) == ToHttpMethod(v)
  {
    var m := ToHttpMethod(v);
    TrimOfTrimmed(m);
    UpperOfUpper(m);
  }

  /** One entry of the resource timing list, after coercion. */
  datatype ResourceEntry = ResourceEntry(name: string, initiatorType: string, duration: real)

  /** The unknown resource name the engine substitutes for a missing or blank one. */
  const UnknownName: string := "[unknown]"

  /** The initiator type of a resource: lower-cased, with "image" folded into "img". */
  function NormalizeInitiatorType(raw: string): (r: string)
    ensures HasNoUpper(r)
    ensures r != "image"
    ensures ToLower(raw) == "image" ==> r == "img"
    ensures ToLower(raw) != "image" ==> r == ToLower(raw)
  {
    var lower := ToLower(raw);
    if lower == "image" then "img" else lower
  }

  /**
   * One item of `props.resources`: kept only when it is a truthy object value
   * whose `duration` coerces to a non-negative number.
   */
  function ToResourceEntry(host: Host, item: Value): (r: Option<ResourceEntry>)
    ensures r.Some? <==>
      Truthy(item) && IsObjectType(item)
      && ToNumber(host, Get(item, "duration")).Some?
      && ToNumber(host, Get(item, "duration")).value >= 0.0
    ensures r.Some? ==> r.value.duration == ToNumber(host, Get(item, "duration")).value
    ensures r.Some? ==> |r.value.name| > 0 && !IsWhitespace(r.value.name[0])
    ensures r.Some? ==> HasNoUpper(r.value.initiatorType) && r.value.initiatorType != "image"
    ensures r.Some? ==>
      var nameField := Get(item, "name");
      if nameField.Str? && !IsBlank(nameField.s) then r.value.name == Trim(nameField.s)
      else r.value.name == UnknownName
    ensures r.Some? ==>
      var typeField := Get(item, "initiatorType");
      r.value.initiatorType == NormalizeInitiatorType(if typeField.Str? then Trim(typeField.s) else "")
  {
    if !Truthy(item) || !IsObjectType(item) then None
    else
      match ToNumber(host, Get(item, "duration"))
      case None => None
      case Some(d) =>
        if d < 0.0 then None
        else
          var nameField := Get(item, "name");
          var typeField := Get(item, "initiatorType");
          var rawName := if nameField.Str? then Trim(nameField.s) else "";
          var rawType := if typeField.Str? then Trim(typeField.s) else "";
          Some(ResourceEntry(
            if rawName == [] then UnknownName else rawName,
            NormalizeInitiatorType(rawType),
            d))
  }

  /** The resource items kept from `items`, in order. */
  function KeptResources(host: Host, items: seq<Value>): (r: seq<ResourceEntry>)
    ensures |r| <= |items|
    ensures forall e :: e in r ==> e.duration >= 0.0 && |e.name| > 0
    ensures forall e :: e in r ==> HasNoUpper(e.initiatorType) && e.initiatorType != "image"
  {
    if items == [] then []
    else
      var rest := KeptResources(host, items[1..]);
      match ToResourceEntry(host, items[0])
      case None => rest
      case Some(e) => [e] + rest
  }

  /** The coercion of every item, in order; `None` for an item that is skipped. */
  function ResourceEntries(host: Host, items: seq<Value>): (r: seq<Option<ResourceEntry>>)
    ensures |r| == |items|
    ensures forall i :: 0 <= i < |items| ==> r[i] == ToResourceEntry(host, items[i])
  {
    seq(|items|, i requires 0 <= i < |items| => ToResourceEntry(host, items[i]))
  }

  /**
   * `toResourceSamples`: the usable entries of an array value, in order, each
   * coerced as `ToResourceEntry` does; a non-array gives nothing.
   */
  function ToResourceSamples(host: Host, v: Value): (r: seq<ResourceEntry>)
    ensures !v.Array? ==> r == []
    ensures v.Array? ==> r == Somes(ResourceEntries(host, v.items))
    ensures forall e :: e in r ==> e.duration >= 0.0 && |e.name| > 0
    ensures forall e :: e in r ==> HasNoUpper(e.initiatorType) && e.initiatorType != "image"
  {
    if v.Array? then
      KeptIsFiltered(host, v.items);
      KeptResources(host, v.items)
    else []
  }

  /** The push loop over the items keeps exactly the present coercions. */
  lemma {:induction false} KeptIsFiltered(host: Host, items: seq<Value>)
    ensures KeptResources(host, items) == Somes(ResourceEntries(host, items))
  {
    if items != [] {
      KeptIsFiltered(host, items[1..]);
      assert ResourceEntries(host, items)[1..] == ResourceEntries(host, items[1..]);
    }
  }

  /** The samples of two arrays joined are the samples of each, joined. */
  lemma ResourceSamplesAppend(host: Host, a: seq<Value>, b: seq<Value>)
    ensures ToResourceSamples(host, Array(a + b)) == ToResourceSamples(host, Array(a)) + ToResourceSamples(host, Array(b))
  {
    EntriesAppend(host, a, b);
    SomesAppend(ResourceEntries(host, a), ResourceEntries(host, b));
  }

  lemma EntriesAppend(host: Host, a: seq<Value>, b: seq<Value>)
    ensures ResourceEntries(host, a + b) == ResourceEntries(host, a) + ResourceEntries(host, b)
  {
    var joined := ResourceEntries(host, a) + ResourceEntries(host, b);
    forall i | 0 <= i < |a + b|
      ensures ResourceEntries(host, a + b)[i] == joined[i]
    {
      if i < |a| {
        assert (a + b)[i] == a[i];
      } else {
        assert (a + b)[i] == b[i - |a|];
      }
    }
  }
}
