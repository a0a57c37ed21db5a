/** pocket/retrieve.go: the options of a retrieve request, the decoding of the
    service's reply, the unpacking and sorting of its items, and one tick of the
    tailer. The HTTP exchange is an oracle `respond` from the request options to
    the reply body (or a transport error); url.Parse is an oracle `parse`. */
module Pocket {
  import opened Wrappers
  import opened GoLib
  import opened Json

  // ---------------------------------------------------------------------------
  // Request options

  /** The fields of a retrieve request (retrieveOptions), as a value. */
  datatype Options = Options(
    state: string, favorite: nat, tag: string, contentType: string, sort: string,
    detailType: string, search: string, domain: string,
    since: int64, count: int64, offset: int64)

  /** What NewRetrieveOptions fills in before applying any option. */
  const Defaults: Options := Options("", 0, "", "article", "oldest", "simple", "", "", 0, 0, 0)

  /** The functional options: Since, WithTag, Unread, Archived and All. */
  datatype RetrieveOpt = Since(since: int64) | WithTag(tag: string) | Unread | Archived | All

  /** The one field an option writes. */
  datatype OptField = StateField | SinceField | TagField

  function FieldOf(f: RetrieveOpt): OptField
  {
    match f
    case Since(_) => SinceField
    case WithTag(_) => TagField
    case _ => StateField
  }

  /** A request after one option has been applied to it. */
  function Applied(o: Options, f: RetrieveOpt): (r: Options)
    ensures r.(state := o.state, since := o.since, tag := o.tag) == o
    ensures FieldOf(f) != StateField ==> r.state == o.state
    ensures FieldOf(f) != SinceField ==> r.since == o.since
    ensures FieldOf(f) != TagField ==> r.tag == o.tag
    ensures f.Since? ==> r.since == f.since
    ensures f.WithTag? ==> r.tag == f.tag
    ensures f == Unread ==> r.state == "unread"
    ensures f == Archived ==> r.state == "archive"
    ensures f == All ==> r.state == "all"
  {
    match f
    case Since(s) => o.(since := s)
    case WithTag(t) => o.(tag := t)
    case Unread => o.(state := "unread")
    case Archived => o.(state := "archive")
    case All => o.(state := "all")
  }

  /** A request after the options have been applied left to right. */
  function AppliedAll(o: Options, fs: seq<RetrieveOpt>): Options
    decreases |fs|
  {
    if fs == [] then o else AppliedAll(Applied(o, fs[0]), fs[1..])
  }

  /** The last option of fs that writes `field`, if any. */
  function LastFor(fs: seq<RetrieveOpt>, field: OptField): (r: Option<RetrieveOpt>)
    ensures r.Some? ==> FieldOf(r.value) == field && r.value in fs
  {
    if fs == [] then None
    else if FieldOf(fs[|fs| - 1]) == field then Some(fs[|fs| - 1])
    else LastFor(fs[..|fs| - 1], field)
  }

  function Override(o: Options, last: Option<RetrieveOpt>): Options
  {
    if last.Some? then Applied(o, last.value) else o
  }

  /** Options that write the same field: the later one wins. */
  lemma LaterOptionOverrides(o: Options, f: RetrieveOpt, g: RetrieveOpt)
    requires FieldOf(f) == FieldOf(g)
    ensures Applied(Applied(o, f), g) == Applied(o, g)
  {
  }

  lemma {:induction false} AppliedAllSnoc(o: Options, fs: seq<RetrieveOpt>, g: RetrieveOpt)
    ensures AppliedAll(o, fs + [g]) == Applied(AppliedAll(o, fs), g)
    decreases |fs|
  {
    if fs == [] {
      assert [g][1..] == [];
    } else {
      assert (fs + [g])[1..] == fs[1..] + [g];
      AppliedAllSnoc(Applied(o, fs[0]), fs[1..], g);
    }
  }

  /** Applying a list of options left to right is the same as applying, for
      each of the three option fields, only the last option that writes it:
      later options override earlier ones and nothing else is touched. */
  lemma {:induction false} AppliedAllIsLastPerField(o: Options, fs: seq<RetrieveOpt>)
    ensures AppliedAll(o, fs) ==
            Override(Override(Override(o, LastFor(fs, StateField)), LastFor(fs, SinceField)),
                     LastFor(fs, TagField))
    decreases |fs|
  {
    if fs != [] {
      var init, g := fs[..|fs| - 1], fs[|fs| - 1];
      assert fs == init + [g];
      assert fs[..|fs| - 1] == init;
      AppliedAllSnoc(o, init, g);
      AppliedAllIsLastPerField(o, init);
      var st, si, tg := LastFor(init, StateField), LastFor(init, SinceField), LastFor(init, TagField);
      var before := Override(Override(Override(o, st), si), tg);
      match FieldOf(g) {
        case StateField =>
          assert Applied(before, g) == Override(Override(Override(o, Some(g)), si), tg);
        case SinceField =>
          assert Applied(before, g) == Override(Override(Override(o, st), Some(g)), tg);
        case TagField =>
          assert Applied(before, g) == Override(Override(Override(o, st), si), Some(g));
      }
    }
  }

  /** The mutable request (retrieveOptions); the option closures and the
      tailer write its fields in place. */
  class RetrieveOptions {
    var state: string
    var favorite: nat
    var tag: string
    var contentType: string
    var sort: string
    var detailType: string
    var search: string
    var domain: string
    var since: int64
    var count: int64
    var offset: int64

    function Value(): Options
      reads this
    {
      Options(state, favorite, tag, contentType, sort, detailType, search, domain, since, count, offset)
    }

    /** NewRetrieveOptions(opts...): the defaults, then each option in order. */
    constructor (opts: seq<RetrieveOpt>)
      ensures Value() == AppliedAll(Defaults, opts)
    {
      state, favorite, tag := "", 0, "";
      contentType, sort, detailType := "article", "oldest", "simple";
      search, domain := "", "";
      since, count, offset := 0, 0, 0;
      new;
      for i := 0 to |opts|
        invariant Value() == AppliedAll(Defaults, opts[..i])
      {
        Apply(opts[i]);
        assert opts[..i + 1] == opts[..i] + [opts[i]];
        AppliedAllSnoc(Defaults, opts[..i], opts[i]);
      }
      assert opts[..|opts|] == opts;
    }

    /** Calls one option closure on this request. */
    method Apply(f: RetrieveOpt)
      modifies this
      ensures Value() == Applied(old(Value()), f)
    {
      match f
      case Since(s) => since := s;
      case WithTag(t) => tag := t;
      case Unread => state := "unread";
      case Archived => state := "archive";
      case All => state := "all";
    }
  }

  // ---------------------------------------------------------------------------
  // Decoding the reply

  /** One entry of the reply's `list` (item). */
  datatype Item = Item(
    itemId: int64, resolvedId: int64, givenUrl: string, resolvedUrl: string,
    givenTitle: string, resolvedTitle: string, favorite: string, status: string,
    sortId: int64)

  const ZeroItem: Item := Item(0, 0, "", "", "", "", "", "", 0)

  /** An entry of `list` stored into an item: the ids are `,string` fields,
      sort_id a plain number, the rest strings; null leaves the zero item. */
  function DecodeItem(v: Json): Result<Item, DecodeError>
  {
    match v
    case Null => Success(ZeroItem)
    case Object(_) =>
      var itemId :- DecodeQuotedInt64(Member(v, "item_id"));
      var resolvedId :- DecodeQuotedInt64(Member(v, "resolved_id"));
      var givenUrl :- DecodeString(Member(v, "given_url"));
      var resolvedUrl :- DecodeString(Member(v, "resolved_url"));
      var givenTitle :- DecodeString(Member(v, "given_title"));
      var resolvedTitle :- DecodeString(Member(v, "resolved_title"));
      var favorite :- DecodeString(Member(v, "favorite"));
      var status :- DecodeString(Member(v, "status"));
      var sortId :- DecodeInt64(Member(v, "sort_id"));
      Success(Item(itemId, resolvedId, givenUrl, resolvedUrl, givenTitle, resolvedTitle,
                   favorite, status, sortId))
    case _ => Failure(TypeMismatch("item"))
  }

  /** How the service writes an item: ids as quoted numbers, sort_id as a number. */
  function EncodeItem(it: Item): Json
  {
    Object(map[
      "item_id" := Str(FormatInt(it.itemId)),
      "resolved_id" := Str(FormatInt(it.resolvedId)),
      "given_url" := Str(it.givenUrl),
      "resolved_url" := Str(it.resolvedUrl),
      "given_title" := Str(it.givenTitle),
      "resolved_title" := Str(it.resolvedTitle),
      "favorite" := Str(it.favorite),
      "status" := Str(it.status),
      "sort_id" := Number(FormatInt(it.sortId))])
  }

  /** Every item the service can write decodes back to itself. */
  lemma ItemRoundTrip(it: Item)
    ensures DecodeItem(EncodeItem(it)) == Success(it)
  {
    QuotedIntRoundTrip(it.itemId);
    QuotedIntRoundTrip(it.resolvedId);
    FormatThenParseInt64(it.sortId);
    EncodedNumbers(it);
    EncodedUrls(it);
    EncodedTexts(it);
  }

  /** The fields EncodeItem writes, looked up three at a time. */
  lemma EncodedNumbers(it: Item)
    ensures var v := EncodeItem(it);
            && Member(v, "item_id") == Str(FormatInt(it.itemId))
            && Member(v, "resolved_id") == Str(FormatInt(it.resolvedId))
            && Member(v, "sort_id") == Number(FormatInt(it.sortId))
  {
  }

  lemma EncodedUrls(it: Item)
    ensures var v := EncodeItem(it);
            && Member(v, "given_url") == Str(it.givenUrl)
            && Member(v, "resolved_url") == Str(it.resolvedUrl)
            && Member(v, "given_title") == Str(it.givenTitle)
  {
  }

  lemma EncodedTexts(it: Item)
    ensures var v := EncodeItem(it);
            && Member(v, "resolved_title") == Str(it.resolvedTitle)
            && Member(v, "favorite") == Str(it.favorite)
            && Member(v, "status") == Str(it.status)
  {
  }

  /** The decoded reply before unpacking (apiRetrieveResult). */
  datatype ApiResult = ApiResult(items: map<string, Item>, since: int64)

  /** json.Unmarshal(data, &r.RetrieveResultMeta). */
  function DecodeMeta(j: Json): Result<int64, DecodeError>
  {
    match j
    case Null => Success(0)
    case Object(_) => DecodeInt64(Member(j, "since"))
    case _ => Failure(TypeMismatch("RetrieveResultMeta"))
  }

  function ListOf(j: Json): Json
  {
    Member(j, "list")
  }

  /** A JSON object stored into a map of items: fails if any entry fails. */
  function DecodeItemMap(fields: map<string, Json>): (r: Option<map<string, Item>>)
    ensures r.Some? <==> forall k :: k in fields ==> DecodeItem(fields[k]).Success?
    ensures r.Some? ==> r.value.Keys == fields.Keys &&
                        forall k :: k in fields ==> r.value[k] == DecodeItem(fields[k]).value
  {
    if forall k | k in fields :: DecodeItem(fields[k]).Success? then
      Some(map k | k in fields :: DecodeItem(fields[k]).value)
    else None
  }

  /** json.Unmarshal(data, &r.apiRetrieveResultItems); None stands for its error. */
  function DecodeItems(j: Json): Option<map<string, Item>>
  {
    match j
    case Null => Some(map[])
    case Object(_) =>
      (match ListOf(j)
       case Null => Some(map[])
       case Object(fields) => DecodeItemMap(fields)
       case _ => None)
    case _ => None
  }

  /** The shapes of `list` the decoder accepts: absent or null, an object whose
      every entry decodes as an item, or an empty array. */
  predicate ListAccepted(l: Json)
  {
    || l.Null?
    || l == Array([])
    || (l.Object? && forall k :: k in l.fields ==> DecodeItem(l.fields[k]).Success?)
  }

  /** apiRetrieveResult.UnmarshalJSON. The metadata is decoded first and its
      error wins; then `list` must have an accepted shape, and an empty array
      stands for an empty item set; any other shape is an error. */
  function Unmarshal(j: Json): (r: Result<ApiResult, DecodeError>)
    ensures DecodeMeta(j).Failure? ==> r == Failure(DecodeMeta(j).error)
    ensures r.Success? <==> DecodeMeta(j).Success? && ListAccepted(ListOf(j))
    ensures r.Failure? && DecodeMeta(j).Success? ==> r.error == UnexpectedListType
    ensures r.Success? ==> r.value.since == DecodeMeta(j).value
    ensures r.Success? && ListOf(j).Object? ==>
              r.value.items.Keys == ListOf(j).fields.Keys &&
              forall k :: k in r.value.items ==> r.value.items[k] == DecodeItem(ListOf(j).fields[k]).value
    ensures r.Success? && !ListOf(j).Object? ==> r.value.items == map[]
  {
    var since :- DecodeMeta(j);
    match DecodeItems(j)
    case Some(items) => Success(ApiResult(items, since))
    case None =>
      // The second decoding into an interface{} cannot fail once the metadata
      // decoded; only an empty array is told apart from a malformed list.
      if ListOf(j) == Array([]) then Success(ApiResult(map[], since))
      else Failure(UnexpectedListType)
  }

  // ---------------------------------------------------------------------------
  // Retrieve

  /** The opaque result of url.Parse. */
  type Url(==)

  datatype Error =
    | RequestFailed(msg: string)
    | DecodeFailed(e: DecodeError)
    | UrlParseFailed(msg: string)

  /** The unpacked, sorted reply (RetrieveResult). */
  datatype RetrieveResult = RetrieveResult(items: seq<Item>, since: int64)

  /** The reply posted to /v3/get, decoded. */
  function Fetch(reply: Result<Json, string>): Result<ApiResult, Error>
  {
    match reply
    case Failure(e) => Failure(RequestFailed(e))
    case Success(j) =>
      (match Unmarshal(j)
       case Success(api) => Success(api)
       case Failure(e) => Failure(DecodeFailed(e)))
  }

  predicate SortedBySortId(s: seq<Item>)
  {
    forall i, j :: 0 <= i < j < |s| ==> s[i].sortId <= s[j].sortId
  }

  /** ks lists every key of m exactly once. */
  ghost predicate Enumerates(ks: seq<string>, m: map<string, Item>)
  {
    && (forall i, j :: 0 <= i < j < |ks| ==> ks[i] != ks[j])
    && (forall k :: k in m <==> k in ks)
  }

  /** The values of m in the order of the keys ks. */
  function Along(m: map<string, Item>, ks: seq<string>): (vs: seq<Item>)
    requires forall i :: 0 <= i < |ks| ==> ks[i] in m
    ensures |vs| == |ks| && forall i :: 0 <= i < |ks| ==> vs[i] == m[ks[i]]
  {
    seq(|ks|, i requires 0 <= i < |ks| => m[ks[i]])
  }

  /** items holds the values of m, each as often as it is stored, in some order. */
  ghost predicate IsUnpacking(items: seq<Item>, m: map<string, Item>)
  {
    exists ks :: Enumerates(ks, m) && multiset(items) == multiset(Along(m, ks))
  }

  predicate ResolvedUrlsParse(m: map<string, Item>, parse: string -> Result<Url, string>)
  {
    forall k :: k in m ==> parse(m[k].resolvedUrl).Success?
  }

  /** No item whose resolved_url fails to parse has a sort_id below `id`. */
  predicate FirstFailing(m: map<string, Item>, parse: string -> Result<Url, string>, id: int)
  {
    forall k :: k in m && parse(m[k].resolvedUrl).Failure? ==> id <= m[k].sortId
  }

  /** What Retrieve may return for a request: the transport or decoding error
      as is; otherwise the reply's items, sorted by sort_id (in no particular
      order among equal keys, as sort.Sort is not stable), with the reply's
      `since` -- unless some item's resolved_url does not parse, which fails
      the whole call with the parse error of a failing item whose sort_id is
      least among the failing ones (the first failure in sorted order). */
  ghost predicate Retrieved(o: Options, respond: Options -> Result<Json, string>,
                            parse: string -> Result<Url, string>, r: Result<RetrieveResult, Error>)
  {
    var fetched := Fetch(respond(o));
    && (fetched.Failure? ==> r == Failure(fetched.error))
    && (fetched.Success? ==>
          var m := fetched.value.items;
          && (r.Success? <==> ResolvedUrlsParse(m, parse))
          && (r.Success? ==>
                && SortedBySortId(r.value.items)
                && IsUnpacking(r.value.items, m)
                && r.value.since == fetched.value.since)
          && (r.Failure? ==>
                && r.error.UrlParseFailed?
                && exists k :: k in m && parse(m[k].resolvedUrl) == Failure(r.error.msg)
                             && FirstFailing(m, parse, m[k].sortId)))
  }

  /** Part way through the range loop over m: the keys ks visited so far, each
      once, with their values in items, and the map rest of keys still to visit. */
  ghost predicate Unpacking(m: map<string, Item>, rest: map<string, Item>, ks: seq<string>, items: seq<Item>)
  {
    && (forall i, j :: 0 <= i < j < |ks| ==> ks[i] != ks[j])
    && (forall k :: k in m <==> k in ks || k in rest)
    && (forall k :: k in rest ==> k !in ks && rest[k] == m[k])
    && |items| == |ks|
    && (forall i :: 0 <= i < |ks| ==> ks[i] in m)
    && (forall i :: 0 <= i < |ks| ==> items[i] == m[ks[i]])
  }

  /** Visiting one more key keeps the loop's invariant. */
  lemma UnpackingStep(m: map<string, Item>, rest: map<string, Item>, ks: seq<string>, items: seq<Item>,
                      k: string)
    requires Unpacking(m, rest, ks, items) && k in rest
    ensures Unpacking(m, rest - {k}, ks + [k], items + [rest[k]])
  {
    var ks', items' := ks + [k], items + [rest[k]];
    assert ks'[|ks|] == k && items'[|ks|] == m[k];
    assert forall i :: 0 <= i < |ks| ==> ks'[i] == ks[i] && items'[i] == items[i];
  }

  /** `for _, v := range res.Items { items = append(items, v) }`: Go visits the
      map in an unspecified order, so each step takes any key not yet visited. */
  method Unpack(m: map<string, Item>) returns (items: seq<Item>, ghost ks: seq<string>)
    ensures Enumerates(ks, m) && items == Along(m, ks)
    ensures forall x :: x in items <==> exists k :: k in m && m[k] == x
  {
    items, ks := [], [];
    var rest := m;
    while rest != map[]
      invariant Unpacking(m, rest, ks, items)
      decreases |rest|
    {
      var k :| k in rest;
      UnpackingStep(m, rest, ks, items, k);
      items, ks := items + [rest[k]], ks + [k];
      rest := rest - {k};
    }
    assert forall k :: k !in rest;
    ValuesAlong(m, ks);
  }

  /** The values along an enumeration of the keys are the map's values. */
  lemma ValuesAlong(m: map<string, Item>, ks: seq<string>)
    requires Enumerates(ks, m)
    ensures forall x :: x in Along(m, ks) <==> exists k :: k in m && m[k] == x
  {
    forall x
      ensures x in Along(m, ks) <==> exists k :: k in m && m[k] == x
    {
      UnpackingMembers(Along(m, ks), m, ks, x);
    }
  }

  /** An unpacking holds exactly the values stored in the map. */
  lemma UnpackingMembers(items: seq<Item>, m: map<string, Item>, ks: seq<string>, x: Item)
    requires Enumerates(ks, m) && multiset(items) == multiset(Along(m, ks))
    ensures x in items <==> exists k :: k in m && m[k] == x
  {
    var vs := Along(m, ks);
    assert x in items <==> x in multiset(vs);
    if x in vs {
      var n :| 0 <= n < |vs| && vs[n] == x;
      assert ks[n] in m && m[ks[n]] == x;
    }
    if k :| k in m && m[k] == x {
      var n :| 0 <= n < |ks| && ks[n] == k;
      assert vs[n] == x;
    }
  }

  /** The loop that parses every resolved_url and stops at the first failure. */
  method ParseResolvedUrls(items: seq<Item>, parse: string -> Result<Url, string>)
    returns (failure: Option<string>)
    ensures failure.None? <==> forall j :: 0 <= j < |items| ==> parse(items[j].resolvedUrl).Success?
    ensures failure.Some? ==>
              exists j :: 0 <= j < |items| && parse(items[j].resolvedUrl) == Failure(failure.value)
                       && forall k :: 0 <= k < j ==> parse(items[k].resolvedUrl).Success?
  {
    for i := 0 to |items|
      invariant forall j :: 0 <= j < i ==> parse(items[j].resolvedUrl).Success?
    {
      var u := parse(items[i].resolvedUrl);
      if u.Failure? {
        return Some(u.error);
      }
    }
    return None;
  }

  /** Auth.Retrieve: post the request, then unpack the item map, sort it by
      sort_id, and parse every resolved_url (the parsed URLs are dropped). */
  method Retrieve(conf: RetrieveOptions, respond: Options -> Result<Json, string>,
                  parse: string -> Result<Url, string>)
    returns (r: Result<RetrieveResult, Error>)
    ensures Retrieved(conf.Value(), respond, parse, r)
  {
    var fetched := Fetch(respond(conf.Value()));
    if fetched.Failure? {
      return Failure(fetched.error);
    }
    var api := fetched.value;
    var items, ks := Unpack(api.items);
    var a := new Item[|items|](i requires 0 <= i < |items| => items[i]);
    assert a[..] == items;
    SortBySortId(a);
    var sorted := a[..];
    assert multiset(sorted) == multiset(Along(api.items, ks));
    var failure := ParseResolvedUrls(sorted, parse);
    if failure.Some? {
      var j :| 0 <= j < |sorted| && parse(sorted[j].resolvedUrl) == Failure(failure.value)
               && forall k :: 0 <= k < j ==> parse(sorted[k].resolvedUrl).Success?;
      UnpackingMembers(sorted, api.items, ks, sorted[j]);
      FirstFailureIsLeast(sorted, api.items, ks, parse, j);
      var k :| k in api.items && api.items[k] == sorted[j];
      assert parse(api.items[k].resolvedUrl) == Failure(failure.value) && FirstFailing(api.items, parse, api.items[k].sortId);
      return Failure(UrlParseFailed(failure.value));
    }
    forall k | k in api.items
      ensures parse(api.items[k].resolvedUrl).Success?
    {
      UnpackingMembers(sorted, api.items, ks, api.items[k]);
    }
    r := Success(RetrieveResult(sorted, api.since));
  }

  /** In an unpacking sorted by sort_id, the first item whose resolved_url
      fails to parse has the least sort_id among all failing items of the map. */
  lemma FirstFailureIsLeast(sorted: seq<Item>, m: map<string, Item>, ks: seq<string>,
                            parse: string -> Result<Url, string>, j: int)
    requires Enumerates(ks, m) && multiset(sorted) == multiset(Along(m, ks))
    requires SortedBySortId(sorted)
    requires 0 <= j < |sorted| && parse(sorted[j].resolvedUrl).Failure?
    requires forall k :: 0 <= k < j ==> parse(sorted[k].resolvedUrl).Success?
    ensures FirstFailing(m, parse, sorted[j].sortId)
  {
    forall k | k in m && parse(m[k].resolvedUrl).Failure?
      ensures sorted[j].sortId <= m[k].sortId
    {
      UnpackingMembers(sorted, m, ks, m[k]);
      var n :| 0 <= n < |sorted| && sorted[n] == m[k];
      assert j <= n;
    }
  }

  /** Exchanges two entries of the array. */
  method Swap(a: array<Item>, i: int, j: int)
    requires 0 <= i < a.Length && 0 <= j < a.Length
    modifies a
    ensures a[..] == old(a[..])[i := old(a[j])][j := old(a[i])]
    ensures multiset(a[..]) == old(multiset(a[..]))
  {
    a[i], a[j] := a[j], a[i];
  }

  /** Moves a[i] left past every larger sort_id, so that a[..i+1] is sorted. */
  method InsertLast(a: array<Item>, i: int)
    requires 0 <= i < a.Length
    requires SortedBySortId(a[..i])
    modifies a
    ensures SortedBySortId(a[..i + 1])
    ensures multiset(a[..]) == old(multiset(a[..]))
  {
    var j := i;
    while j > 0 && a[j - 1].sortId > a[j].sortId
      invariant 0 <= j <= i
      invariant forall p, q :: 0 <= p < q <= i && p != j && q != j ==> a[p].sortId <= a[q].sortId
      invariant forall q :: j < q <= i ==> a[j].sortId < a[q].sortId
      invariant multiset(a[..]) == old(multiset(a[..]))
    {
      Swap(a, j - 1, j);
      j := j - 1;
    }
  }

  /** itemList's sort.Sort, in place: afterwards the array is non-decreasing in
      sort_id and holds the same items. */
  method SortBySortId(a: array<Item>)
    modifies a
    ensures SortedBySortId(a[..])
    ensures multiset(a[..]) == old(multiset(a[..]))
  {
    for i := 0 to a.Length
      invariant SortedBySortId(a[..i])
      invariant multiset(a[..]) == old(multiset(a[..]))
    {
      InsertLast(a, i);
    }
    assert a[..a.Length] == a[..];
  }

  /** Sorting decides the order whenever the sort_ids differ: items with
      sort_ids 3, 1 and 2 come out as the second, the third, the first. */
  lemma SortOrderOfDistinctKeys(a: Item, b: Item, c: Item, s: seq<Item>)
    requires a.sortId == 3 && b.sortId == 1 && c.sortId == 2
    requires SortedBySortId(s) && multiset(s) == multiset([a, b, c])
    ensures s == [b, c, a]
  {
    assert |s| == |multiset(s)| == 3;
    forall i | 0 <= i < 3
      ensures s[i] == a || s[i] == b || s[i] == c
    {
      assert s[i] in multiset(s);
    }
    assert multiset(s) == multiset{s[0], s[1], s[2]} by {
      assert s == [s[0], s[1], s[2]];
    }
  }

  // ---------------------------------------------------------------------------
  // Tail

  /** What the tailer sends on its channel: a parsed URL or an error. A reader
      of the channel also has to handle any other value. */
  datatype TailValue = UrlValue(url: Url) | ErrorValue(err: Error) | OtherValue

  /** The URL the tailer follows for an item: resolved_url, else given_url. */
  function TargetUrl(it: Item): (u: string)
    ensures u == FirstNonEmpty([it.resolvedUrl, it.givenUrl])
  {
    if |it.resolvedUrl| <= 0 then it.givenUrl else it.resolvedUrl
  }

  /** The value the tailer sends for one item. */
  function Emission(it: Item, parse: string -> Result<Url, string>): TailValue
  {
    match parse(TargetUrl(it))
    case Success(u) => UrlValue(u)
    case Failure(e) => ErrorValue(UrlParseFailed(e))
  }

  /** One tick of Auth.Tail: retrieve with the current request; on error send
      exactly that error and leave the request alone; on success move the
      cursor to the reply's `since` + 1 and send one value per item, in the
      order of the result. */
  method TailTick(conf: RetrieveOptions, respond: Options -> Result<Json, string>,
                  parse: string -> Result<Url, string>)
    returns (res: Result<RetrieveResult, Error>, out: seq<TailValue>)
    modifies conf
    ensures Retrieved(old(conf.Value()), respond, parse, res)
    ensures res.Failure? ==> out == [ErrorValue(res.error)] && conf.Value() == old(conf.Value())
    ensures res.Success? ==> conf.Value() == old(conf.Value()).(since := Inc(res.value.since))
    ensures res.Success? ==> |out| == |res.value.items| &&
                             forall i :: 0 <= i < |out| ==> out[i] == Emission(res.value.items[i], parse)
  {
    res := Retrieve(conf, respond, parse);
    if res.Failure? {
      out := [ErrorValue(res.error)];
      return;
    }
    conf.since := Inc(res.value.since);
    var items := res.value.items;
    out := [];
    for i := 0 to |items|
      invariant |out| == i
      invariant forall j :: 0 <= j < i ==> out[j] == Emission(items[j], parse)
    {
      out := out + [Emission(items[i], parse)];
    }
  }
}
