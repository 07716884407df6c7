/** The token-list schema `ERC20Schema`: a token list is a JSON array whose
    every element is a strict object with exactly the fields name, symbol,
    address, logoURI, decimals and chainId, each passing its field check.
    Validation reports a list of issues; it succeeds when that list is empty. */
module Schema {

  /** A parsed JSON value. Numbers are exact reals. */
  datatype Json =
    | JNull
    | JBool(b: bool)
    | JNumber(n: real)
    | JString(s: string)
    | JArray(elements: seq<Json>)
    | JObject(members: map<string, Json>)

  /** The string checks the schema delegates to library code: `isAddress`
      of the ethereum-address package, and zod's `.url()` and `.base64()`. */
  datatype Oracles = Oracles(
    isAddress: string -> bool,
    isUrl: string -> bool,
    isBase64: string -> bool)

  /** The check one field of a token entry must pass. */
  datatype Rule =
    | AnyString             // z.string()
    | AddressString         // z.string().refine(isAddress)
    | UrlOrBase64           // z.union([z.string().url().min(1), z.string().base64().min(1)])
    | IntegerAtMost(max: int) // z.number().int().max(max)
    | AnyInteger            // z.number().int()

  /** `decimals` may be at most 2 ** 8. */
  const MaxDecimals: int := 256

  const EntryKeys: set<string> := {"name", "symbol", "address", "logoURI", "decimals", "chainId"}

  /** `Number.isInteger` on a finite number. */
  predicate IsInteger(x: real)
  {
    x.Floor as real == x
  }

  /** Whether a present field value passes its check. */
  predicate Accepts(o: Oracles, rule: Rule, v: Json)
  {
    match rule
    case AnyString => v.JString?
    case AddressString => v.JString? && o.isAddress(v.s)
    case UrlOrBase64 =>
      v.JString? && ((|v.s| >= 1 && o.isUrl(v.s)) || (|v.s| >= 1 && o.isBase64(v.s)))
    case IntegerAtMost(max) => v.JNumber? && IsInteger(v.n) && v.n <= max as real
    case AnyInteger => v.JNumber? && IsInteger(v.n)
  }

  /** What a failed validation reports, located by array index. */
  datatype Issue =
    | NotAnArray
    | NotAnObject(index: nat)
    | InvalidField(index: nat, key: string)
    | UnrecognizedKeys(index: nat, keys: set<string>)

  /** The issue of one declared field: none when it is present and passes. */
  function FieldIssue(o: Oracles, index: nat, members: map<string, Json>, key: string, rule: Rule): seq<Issue>
  {
    if key in members && Accepts(o, rule, members[key]) then [] else [InvalidField(index, key)]
  }

  /** The strict object check on the element at `index`: the declared
      fields in declaration order, then any keys that are not declared. */
  function EntryIssues(o: Oracles, index: nat, v: Json): seq<Issue>
  {
    match v
    case JObject(m) =>
      var extra := m.Keys - EntryKeys;
      FieldIssue(o, index, m, "name", AnyString)
      + FieldIssue(o, index, m, "symbol", AnyString)
      + FieldIssue(o, index, m, "address", AddressString)
      + FieldIssue(o, index, m, "logoURI", UrlOrBase64)
      + FieldIssue(o, index, m, "decimals", IntegerAtMost(MaxDecimals))
      + FieldIssue(o, index, m, "chainId", AnyInteger)
      + (if extra == {} then [] else [UnrecognizedKeys(index, extra)])
    case _ => [NotAnObject(index)]
  }

  /** The issues of every element, in array order. */
  function ElementIssues(o: Oracles, elements: seq<Json>): seq<Issue>
  {
    if elements == [] then []
    else
      var last := |elements| - 1;
      ElementIssues(o, elements[..last]) + EntryIssues(o, last, elements[last])
  }

  /** `ERC20Schema.safeParse(value)`: the issues found; success is none. */
  function SafeParse(o: Oracles, value: Json): seq<Issue>
  {
    match value
    case JArray(elements) => ElementIssues(o, elements)
    case _ => [NotAnArray]
  }

  /** A token entry, stated field by field. */
  predicate IsTokenEntry(o: Oracles, v: Json)
  {
    && v.JObject?
    && v.members.Keys == EntryKeys
    && v.members["name"].JString?
    && v.members["symbol"].JString?
    && v.members["address"].JString? && o.isAddress(v.members["address"].s)
    && v.members["logoURI"].JString? && |v.members["logoURI"].s| > 0
    && (o.isUrl(v.members["logoURI"].s) || o.isBase64(v.members["logoURI"].s))
    && v.members["decimals"].JNumber? && IsInteger(v.members["decimals"].n)
    && v.members["decimals"].n <= 256.0
    && v.members["chainId"].JNumber? && IsInteger(v.members["chainId"].n)
  }

  /** A token list: an array of token entries. */
  predicate IsTokenList(o: Oracles, v: Json)
  {
    v.JArray? && forall j :: 0 <= j < |v.elements| ==> IsTokenEntry(o, v.elements[j])
  }

  /** The strict object check passes exactly on token entries. */
  lemma EntryIssuesEmptyIff(o: Oracles, index: nat, v: Json)
    ensures EntryIssues(o, index, v) == [] <==> IsTokenEntry(o, v)
  {
    if v.JObject? {
      var m := v.members;
      var present := "name" in m && "symbol" in m && "address" in m && "logoURI" in m
                     && "decimals" in m && "chainId" in m;
      assert present <==> EntryKeys <= m.Keys;
      assert m.Keys - EntryKeys == {} <==> m.Keys <= EntryKeys;
    }
  }

  /** Every issue of an element names that element's index. */
  lemma EntryIssuesAt(o: Oracles, index: nat, v: Json)
    ensures forall issue :: issue in EntryIssues(o, index, v) ==> !issue.NotAnArray? && issue.index == index
  {
  }

  /** The elements' issues are exactly the issues of each element, each
      located at that element's own index. */
  lemma {:induction false} ElementIssuesLocate(o: Oracles, elements: seq<Json>)
    ensures forall issue :: issue in ElementIssues(o, elements) ==>
              !issue.NotAnArray? && issue.index < |elements|
              && issue in EntryIssues(o, issue.index, elements[issue.index])
    ensures forall j, issue :: 0 <= j < |elements| && issue in EntryIssues(o, j, elements[j]) ==>
              issue in ElementIssues(o, elements)
    decreases |elements|
  {
    if elements != [] {
      var last := |elements| - 1;
      var init := elements[..last];
      var here := EntryIssues(o, last, elements[last]);
      ElementIssuesLocate(o, init);
      EntryIssuesAt(o, last, elements[last]);
      assert ElementIssues(o, elements) == ElementIssues(o, init) + here;
      forall issue | issue in ElementIssues(o, elements)
        ensures !issue.NotAnArray? && issue.index < |elements|
                && issue in EntryIssues(o, issue.index, elements[issue.index])
      {
        if issue in ElementIssues(o, init) {
          assert init[issue.index] == elements[issue.index];
        }
      }
      forall j, issue | 0 <= j < |elements| && issue in EntryIssues(o, j, elements[j])
        ensures issue in ElementIssues(o, elements)
      {
        if j < last {
          assert init[j] == elements[j];
        }
      }
    }
  }

  /** Every issue names an element that is not a token entry, and every
      element that is not a token entry has an issue naming it. */
  lemma InvalidEntriesReported(o: Oracles, elements: seq<Json>)
    ensures forall issue :: issue in ElementIssues(o, elements) ==>
              !issue.NotAnArray? && issue.index < |elements| && !IsTokenEntry(o, elements[issue.index])
    ensures forall j :: 0 <= j < |elements| && !IsTokenEntry(o, elements[j]) ==>
              exists issue :: issue in ElementIssues(o, elements) && !issue.NotAnArray? && issue.index == j
  {
    ElementIssuesLocate(o, elements);
    forall issue | issue in ElementIssues(o, elements)
      ensures !IsTokenEntry(o, elements[issue.index])
    {
      EntryIssuesEmptyIff(o, issue.index, elements[issue.index]);
    }
    forall j | 0 <= j < |elements| && !IsTokenEntry(o, elements[j])
      ensures exists issue :: issue in ElementIssues(o, elements) && !issue.NotAnArray? && issue.index == j
    {
      var here := EntryIssues(o, j, elements[j]);
      EntryIssuesEmptyIff(o, j, elements[j]);
      EntryIssuesAt(o, j, elements[j]);
      assert here[0] in here;
    }
  }

  /** The element issues are empty exactly when every element is a token entry. */
  lemma {:induction false} ElementIssuesEmptyIff(o: Oracles, elements: seq<Json>)
    ensures ElementIssues(o, elements) == [] <==>
              forall j :: 0 <= j < |elements| ==> IsTokenEntry(o, elements[j])
    decreases |elements|
  {
    if elements != [] {
      var last := |elements| - 1;
      var init := elements[..last];
      ElementIssuesEmptyIff(o, init);
      EntryIssuesEmptyIff(o, last, elements[last]);
      assert forall j :: 0 <= j < last ==> init[j] == elements[j];
      assert (forall j :: 0 <= j < |elements| ==> IsTokenEntry(o, elements[j]))
         <==> (forall j :: 0 <= j < last ==> IsTokenEntry(o, init[j])) && IsTokenEntry(o, elements[last]);
    }
  }

  /** Validation succeeds exactly on token lists. */
  lemma SafeParseSucceedsIff(o: Oracles, value: Json)
    ensures SafeParse(o, value) == [] <==> IsTokenList(o, value)
  {
    if value.JArray? {
      ElementIssuesEmptyIff(o, value.elements);
    }
  }

  /** An empty array is a valid token list. */
  lemma EmptyListIsValid(o: Oracles)
    ensures SafeParse(o, JArray([])) == []
    ensures IsTokenList(o, JArray([]))
  {
  }

  /** A key outside the declared fields rejects the entry. */
  lemma ExtraKeyRejected(o: Oracles, index: nat, m: map<string, Json>, key: string)
    requires key in m && key !in EntryKeys
    ensures !IsTokenEntry(o, JObject(m))
    ensures exists issue :: issue in EntryIssues(o, index, JObject(m)) && issue.UnrecognizedKeys? && key in issue.keys
  {
    var extra := m.Keys - EntryKeys;
    assert key in extra;
    var issue := UnrecognizedKeys(index, extra);
    assert issue in EntryIssues(o, index, JObject(m));
  }

  /** The entry of the sample token list, with the given field values. */
  function SampleEntry(name: string, symbol: string, address: string, logo: string, decimals: real): Json
  {
    JObject(map[
      "name" := JString(name),
      "symbol" := JString(symbol),
      "address" := JString(address),
      "logoURI" := JString(logo),
      "decimals" := JNumber(decimals),
      "chainId" := JNumber(1.0)])
  }

  const SampleLogo: string := "https://example.com/a.png"

  /** The issues of a one-entry sample list: one for each of its address,
      logo and decimals that fails its check, in declaration order. */
  lemma SampleIssues(o: Oracles, name: string, symbol: string, address: string, logo: string, decimals: real)
    ensures SafeParse(o, JArray([SampleEntry(name, symbol, address, logo, decimals)])) ==
              (if o.isAddress(address) then [] else [InvalidField(0, "address")])
              + (if |logo| > 0 && (o.isUrl(logo) || o.isBase64(logo)) then [] else [InvalidField(0, "logoURI")])
              + (if IsInteger(decimals) && decimals <= 256.0 then [] else [InvalidField(0, "decimals")])
  {
    var e := SampleEntry(name, symbol, address, logo, decimals);
    SampleFieldIssues(o, name, symbol, address, logo, decimals);
    assert e.members["address"] == JString(address);
    assert e.members["logoURI"] == JString(logo);
    assert e.members["decimals"] == JNumber(decimals);
  }

  /** The same, field by field: the sample's other fields always pass. */
  lemma SampleFieldIssues(o: Oracles, name: string, symbol: string, address: string, logo: string, decimals: real)
    ensures var e := SampleEntry(name, symbol, address, logo, decimals);
            SafeParse(o, JArray([e])) ==
              FieldIssue(o, 0, e.members, "address", AddressString)
              + FieldIssue(o, 0, e.members, "logoURI", UrlOrBase64)
              + FieldIssue(o, 0, e.members, "decimals", IntegerAtMost(MaxDecimals))
  {
    var e := SampleEntry(name, symbol, address, logo, decimals);
    assert e.members.Keys == EntryKeys;
    assert [e][..0] == [];
    assert ElementIssues(o, [e]) == EntryIssues(o, 0, e);
    assert FieldIssue(o, 0, e.members, "name", AnyString) == [];
    assert FieldIssue(o, 0, e.members, "symbol", AnyString) == [];
    assert FieldIssue(o, 0, e.members, "chainId", AnyInteger) == [];
  }

  /** The decimals of a sample entry are reported exactly when they are not
      an integer at most 2 ** 8; with an accepted address and logo that is
      the only issue. */
  lemma DecimalsReported(o: Oracles, address: string, logo: string, decimals: real)
    ensures var issues := SafeParse(o, JArray([SampleEntry("Token", "TKN", address, logo, decimals)]));
            && (InvalidField(0, "decimals") in issues <==> !(IsInteger(decimals) && decimals <= 256.0))
            && (o.isAddress(address) && |logo| > 0 && (o.isUrl(logo) || o.isBase64(logo)) ==>
                  issues == if IsInteger(decimals) && decimals <= 256.0 then [] else [InvalidField(0, "decimals")])
  {
    SampleIssues(o, "Token", "TKN", address, logo, decimals);
  }

  /** The sample list passes exactly when its address and logo pass the
      library checks and its decimals are an integer at most 2 ** 8: any
      name and symbol pass, even empty ones, and so do negative decimals; a base64
      logo serves as well as a URL. */
  lemma SampleListIsValid(o: Oracles, name: string, symbol: string, address: string, logo: string, decimals: real)
    ensures SafeParse(o, JArray([SampleEntry(name, symbol, address, logo, decimals)])) == []
            <==> o.isAddress(address) && |logo| > 0 && (o.isUrl(logo) || o.isBase64(logo))
                 && IsInteger(decimals) && decimals <= 256.0
  {
    SampleIssues(o, name, symbol, address, logo, decimals);
  }

  /** An address the address check refuses is always reported against
      `address`, and alone when the logo passes. */
  lemma BadAddressReported(o: Oracles, address: string)
    requires !o.isAddress(address)
    ensures InvalidField(0, "address") in SafeParse(o, JArray([SampleEntry("Token", "TKN", address, SampleLogo, 18.0)]))
    ensures o.isUrl(SampleLogo) ==>
              SafeParse(o, JArray([SampleEntry("Token", "TKN", address, SampleLogo, 18.0)])) == [InvalidField(0, "address")]
  {
    SampleIssues(o, "Token", "TKN", address, SampleLogo, 18.0);
  }

  /** Decimals above 2 ** 8, or not an integer, are always reported against
      `decimals`; 256 itself never is. With an accepted address and logo,
      that issue is the only one. */
  lemma DecimalsAboveBoundReported(o: Oracles, address: string)
    ensures InvalidField(0, "decimals") in SafeParse(o, JArray([SampleEntry("Token", "TKN", address, SampleLogo, 300.0)]))
    ensures InvalidField(0, "decimals") in SafeParse(o, JArray([SampleEntry("Token", "TKN", address, SampleLogo, 18.5)]))
    ensures InvalidField(0, "decimals") !in SafeParse(o, JArray([SampleEntry("Token", "TKN", address, SampleLogo, 256.0)]))
    ensures o.isAddress(address) && o.isUrl(SampleLogo) ==>
              && SafeParse(o, JArray([SampleEntry("Token", "TKN", address, SampleLogo, 300.0)])) == [InvalidField(0, "decimals")]
              && SafeParse(o, JArray([SampleEntry("Token", "TKN", address, SampleLogo, 256.0)])) == []
              && SafeParse(o, JArray([SampleEntry("Token", "TKN", address, SampleLogo, 18.5)])) == [InvalidField(0, "decimals")]
  {
    assert |SampleLogo| > 0;
    assert IsInteger(300.0) && IsInteger(256.0);
    assert !IsInteger(18.5) by {
      assert 18.5.Floor == 18;
    }
    DecimalsReported(o, address, SampleLogo, 300.0);
    DecimalsReported(o, address, SampleLogo, 256.0);
    DecimalsReported(o, address, SampleLogo, 18.5);
  }

  /** A logo that is neither a URL nor base64, or is empty, is always
      reported against `logoURI`, and alone when the address passes. */
  lemma BadLogoReported(o: Oracles, address: string, logo: string)
    requires logo == [] || (!o.isUrl(logo) && !o.isBase64(logo))
    ensures InvalidField(0, "logoURI") in SafeParse(o, JArray([SampleEntry("Token", "TKN", address, logo, 18.0)]))
    ensures o.isAddress(address) ==>
              SafeParse(o, JArray([SampleEntry("Token", "TKN", address, logo, 18.0)])) == [InvalidField(0, "logoURI")]
  {
    SampleIssues(o, "Token", "TKN", address, logo, 18.0);
  }

  /** Adding an undeclared key to an object with exactly the declared keys
      adds exactly one issue, naming that key, after the field issues. */
  lemma AddedKeyReported(o: Oracles, index: nat, m: map<string, Json>, key: string, v: Json)
    requires m.Keys == EntryKeys && key !in EntryKeys
    ensures EntryIssues(o, index, JObject(m[key := v]))
            == EntryIssues(o, index, JObject(m)) + [UnrecognizedKeys(index, {key})]
  {
    var m' := m[key := v];
    assert m'.Keys - EntryKeys == {key};
    assert m.Keys - EntryKeys == {};
    forall k, rule | k in EntryKeys
      ensures FieldIssue(o, index, m', k, rule) == FieldIssue(o, index, m, k, rule)
    {
      assert k != key;
    }
  }

  /** An extra key "foo" on a sample entry is always reported as an
      unrecognized key, after the entry's field issues; with an accepted
      address and logo it is the one issue. */
  lemma ExtraFieldReported(o: Oracles, address: string)
    ensures var e := SampleEntry("Token", "TKN", address, SampleLogo, 18.0);
            var issues := SafeParse(o, JArray([JObject(e.members["foo" := JString("bar")])]));
            && issues == SafeParse(o, JArray([e])) + [UnrecognizedKeys(0, {"foo"})]
            && (o.isAddress(address) && o.isUrl(SampleLogo) ==> issues == [UnrecognizedKeys(0, {"foo"})])
  {
    var e := SampleEntry("Token", "TKN", address, SampleLogo, 18.0);
    var m := e.members["foo" := JString("bar")];
    SampleIssues(o, "Token", "TKN", address, SampleLogo, 18.0);
    assert [e][..0] == [];
    assert ElementIssues(o, [e]) == EntryIssues(o, 0, e);
    AddedKeyReported(o, 0, e.members, "foo", JString("bar"));
    assert [JObject(m)][..0] == [];
    assert ElementIssues(o, [JObject(m)]) == EntryIssues(o, 0, JObject(m));
  }
}
