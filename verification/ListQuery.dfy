/**
 * The query string the web client prints for a list request, and the hand-written parsers the server
 * reads it with. Three parsers share one loop and differ in what an `Endpoint` records.
 */
module ListQuery {
  import opened Wrappers
  import opened Text
  import opened FormEncoding
  import opened QueueSection

  /** hasSection: the remediation queue takes, and insists on, a section. */
  datatype Endpoint = Endpoint(hasSection: bool, maxLimit: int, defaultLimit: int, maxCursorLength: int)

  const REMEDIATION_QUEUE := Endpoint(true, 50, 20, 2048)
  const FINDING_DISCOVERY := Endpoint(false, 20, 10, 4096)
  const PRODUCT_MATCH_CANDIDATES := Endpoint(false, 20, 10, 2048)

  datatype Query = Query(section: Option<Section>, limit: int, cursor: Option<string>)

  function SectionOf(name: string): Option<Section> {
    if name == "ranked" then Some(Ranked)
    else if name == "incomparable" then Some(Incomparable)
    else if name == "not_calculated" then Some(NotCalculated)
    else None
  }

  /** String length as JavaScript counts it, in UTF-16 code units. */
  function Utf16Length(s: string): nat { |Utf16(s)| }

  predicate Digit(c: char) { '0' <= c <= '9' }

  function DigitValue(c: char): int
    requires Digit(c)
  {
    c as int - '0' as int
  }

  /** The patterns of the three parsers: a number from 1 to the cap, without leading zeros. */
  function LimitOf(e: Endpoint, value: string): Option<int> {
    if |value| == 1 && '1' <= value[0] <= '9' then Some(DigitValue(value[0]))
    else if |value| == 2 && '1' <= value[0] <= '9' && Digit(value[1])
        && DigitValue(value[0]) * 10 + DigitValue(value[1]) <= e.maxLimit
    then Some(DigitValue(value[0]) * 10 + DigitValue(value[1]))
    else None
  }

  // ---- the server ----

  /** One accepted parameter. */
  datatype Item = SectionItem(section: Section) | LimitItem(limit: int) | CursorItem(cursor: string)

  /** Name and value of a part as the server decodes them; None where decoding throws or the part is empty. */
  function Decoded(part: string): Option<(string, string)> {
    if part == "" then None
    else
      var separator := IndexOf(part, '=');
      var rawValue := if separator == |part| then "" else part[separator + 1..];
      match (Decode(PlusToSpace(part[..separator])), Decode(PlusToSpace(rawValue)))
      case (Some(key), Some(value)) => Some((key, value))
      case _ => None
  }

  function ItemOf(e: Endpoint, part: string): Option<Item> {
    match Decoded(part)
    case None => None
    case Some((key, value)) =>
      if e.hasSection && key == "section" then
        match SectionOf(value) case None => None case Some(section) => Some(SectionItem(section))
      else if key == "limit" then
        match LimitOf(e, value) case None => None case Some(limit) => Some(LimitItem(limit))
      else if key == "cursor" then
        if |value| == 0 || Utf16Length(value) > e.maxCursorLength then None else Some(CursorItem(value))
      else None
  }

  /** What the loop has seen so far. */
  datatype Seen = Seen(section: Option<Section>, limit: Option<int>, cursor: Option<string>)

  const NOTHING := Seen(None, None, None)

  /** One turn of the loop: a bad part or a key seen before ends the parse. */
  function Take(e: Endpoint, seen: Option<Seen>, part: string): Option<Seen> {
    match (seen, ItemOf(e, part))
    case (Some(s), Some(SectionItem(section))) => if s.section.Some? then None else Some(s.(section := Some(section)))
    case (Some(s), Some(LimitItem(limit))) => if s.limit.Some? then None else Some(s.(limit := Some(limit)))
    case (Some(s), Some(CursorItem(cursor))) => if s.cursor.Some? then None else Some(s.(cursor := Some(cursor)))
    case _ => None
  }

  function TakeAll(e: Endpoint, seen: Option<Seen>, parts: seq<string>): Option<Seen>
    decreases |parts|
  {
    if parts == [] then seen else TakeAll(e, Take(e, seen, parts[0]), parts[1..])
  }

  function Finish(e: Endpoint, seen: Option<Seen>): Option<Query> {
    match seen
    case None => None
    case Some(s) =>
      if e.hasSection && s.section.None? then None
      else Some(Query(s.section, if s.limit.Some? then s.limit.value else e.defaultLimit, s.cursor))
  }

  function ParseParts(e: Endpoint, parts: seq<string>): Option<Query> {
    Finish(e, TakeAll(e, Some(NOTHING), parts))
  }

  /** The part of a URL between its first question mark and the next hash. */
  function QueryOf(url: string): string {
    var question := IndexOf(url, '?');
    if question == |url| then "" else Split(url[question + 1..], '#')[0]
  }

  function Parse(e: Endpoint, url: string): Option<Query> {
    var query := QueryOf(url);
    if query == "" then Finish(e, Some(NOTHING)) else ParseParts(e, Split(query, '&'))
  }

  lemma {:induction false} TakeAllSnoc(e: Endpoint, seen: Option<Seen>, parts: seq<string>, last: string)
    ensures TakeAll(e, seen, parts + [last]) == Take(e, TakeAll(e, seen, parts), last)
    decreases |parts|
  {
    hide Take;
    if parts != [] {
      assert (parts + [last])[1..] == parts[1..] + [last];
      TakeAllSnoc(e, Take(e, seen, parts[0]), parts[1..], last);
    } else {
      assert (parts + [last])[1..] == [];
    }
  }

  lemma {:induction false} FailureStays(e: Endpoint, parts: seq<string>)
    ensures TakeAll(e, None, parts) == None
  {
    if parts != [] { FailureStays(e, parts[1..]); }
  }

  /** Names in `seen` are the keys whose variable has been assigned. */
  ghost predicate Tracks(names: set<string>, s: Seen) {
    && names <= {"section", "limit", "cursor"}
    && ("section" in names <==> s.section.Some?) && ("limit" in names <==> s.limit.Some?)
    && ("cursor" in names <==> s.cursor.Some?)
  }

  lemma NamesDiffer()
    ensures "section" != "limit" && "section" != "cursor" && "limit" != "cursor"
  {
    assert "section"[0] == 's' && "limit"[0] == 'l' && "cursor"[0] == 'c';
  }

  /** The loop before and after its k-th turn, and what a failing turn means for the whole. */
  lemma Turn(e: Endpoint, parts: seq<string>, k: nat)
    requires k < |parts|
    ensures TakeAll(e, Some(NOTHING), parts[..k + 1]) == Take(e, TakeAll(e, Some(NOTHING), parts[..k]), parts[k])
    ensures Take(e, TakeAll(e, Some(NOTHING), parts[..k]), parts[k]) == None ==> ParseParts(e, parts) == None
  {
    hide Take, TakeAll;
    assert parts[..k + 1] == parts[..k] + [parts[k]];
    TakeAllSnoc(e, Some(NOTHING), parts[..k], parts[k]);
    assert parts == parts[..k + 1] + parts[k + 1..];
    TakeAllAppend(e, Some(NOTHING), parts[..k + 1], parts[k + 1..]);
    FailureStays(e, parts[k + 1..]);
  }

  lemma WholeParse(e: Endpoint, parts: seq<string>, s: Seen)
    requires TakeAll(e, Some(NOTHING), parts[..|parts|]) == Some(s)
    ensures ParseParts(e, parts) == Finish(e, Some(s))
  {
    assert parts[..|parts|] == parts;
  }

  /** `parseRemediationQueueQuery`, `parseDiscoveryQuery` and `parseProductMatchCandidateQuery`. */
  method ParseQuery(e: Endpoint, url: string) returns (parsed: Option<Query>)
    ensures parsed == Parse(e, url)
  {
    hide TakeAll, ParseParts, Decoded, SectionOf, LimitOf, Utf16Length, IndexOf, Split, QueryOf;
    var query := QueryOf(url);
    if query == "" {
      return if e.hasSection then None else Some(Query(None, e.defaultLimit, None));
    }
    NamesDiffer();
    var parts := Split(query, '&');
    var names: set<string> := {};
    var section: Option<Section> := None;
    var limit: Option<int> := None;
    var cursor: Option<string> := None;
    StartOfLoop(e, parts);
    for k := 0 to |parts|
      invariant TakeAll(e, Some(NOTHING), parts[..k]) == Some(Seen(section, limit, cursor))
      invariant Tracks(names, Seen(section, limit, cursor))
    {
      Turn(e, parts, k);
      var decoded := Decoded(parts[k]);
      if decoded.None? { return None; }
      var (key, value) := decoded.value;
      if key in names { return None; }
      names := names + {key};
      if e.hasSection && key == "section" {
        section := SectionOf(value);
        if section.None? { return None; }
      } else if key == "limit" {
        limit := LimitOf(e, value);
        if limit.None? { return None; }
      } else if key == "cursor" {
        if |value| == 0 || Utf16Length(value) > e.maxCursorLength { return None; }
        cursor := Some(value);
      } else {
        return None;
      }
    }
    WholeParse(e, parts, Seen(section, limit, cursor));
    if e.hasSection && section.None? { return None; }
    parsed := Some(Query(section, if limit.Some? then limit.value else e.defaultLimit, cursor));
  }

  lemma StartOfLoop(e: Endpoint, parts: seq<string>)
    ensures TakeAll(e, Some(NOTHING), parts[..0]) == Some(NOTHING)
  {
  }

  lemma {:induction false} TakeAllAppend(e: Endpoint, seen: Option<Seen>, a: seq<string>, b: seq<string>)
    ensures TakeAll(e, seen, a + b) == TakeAll(e, TakeAll(e, seen, a), b)
    decreases |a|
  {
    hide Take;
    if a != [] {
      assert (a + b)[1..] == a[1..] + b;
      TakeAllAppend(e, Take(e, seen, a[0]), a[1..], b);
    } else {
      assert a + b == b;
    }
  }

  // ---- order and repetition ----

  lemma TakesCommute(e: Endpoint, seen: Option<Seen>, a: string, b: string)
    ensures Take(e, Take(e, seen, a), b) == Take(e, Take(e, seen, b), a)
  {
    hide ItemOf;
  }

  lemma {:induction false} TakeFirst(e: Endpoint, seen: Option<Seen>, before: seq<string>, part: string)
    ensures TakeAll(e, Take(e, seen, part), before) == Take(e, TakeAll(e, seen, before), part)
    decreases |before|
  {
    hide Take;
    if before != [] {
      TakesCommute(e, seen, part, before[0]);
      TakeFirst(e, Take(e, seen, before[0]), before[1..], part);
    }
  }

  lemma PickOut(a: seq<string>, b: seq<string>) returns (k: nat)
    requires |a| > 0 && multiset(a) == multiset(b)
    ensures k < |b| && b[k] == a[0] && b == b[..k] + [b[k]] + b[k + 1..]
    ensures multiset(a[1..]) == multiset(b[..k] + b[k + 1..])
  {
    assert a == [a[0]] + a[1..];
    assert a[0] in multiset(b);
    k :| 0 <= k < |b| && b[k] == a[0];
    assert b == b[..k] + [b[k]] + b[k + 1..];
    assert multiset(a[1..]) == multiset(a) - multiset{a[0]};
    assert multiset(b[..k] + b[k + 1..]) == multiset(b) - multiset{a[0]};
  }

  /** The result does not depend on the order of the parameters. */
  lemma {:induction false} OrderDoesNotMatter(e: Endpoint, seen: Option<Seen>, a: seq<string>, b: seq<string>)
    requires multiset(a) == multiset(b)
    ensures TakeAll(e, seen, a) == TakeAll(e, seen, b)
    decreases |a|
  {
    hide Take;
    if a == [] {
      assert |b| == |multiset(b)| == 0;
    } else {
      var k := PickOut(a, b);
      OrderDoesNotMatter(e, Take(e, seen, a[0]), a[1..], b[..k] + b[k + 1..]);
      MoveToFront(e, seen, b[..k], b[k], b[k + 1..]);
    }
  }

  lemma MoveToFront(e: Endpoint, seen: Option<Seen>, before: seq<string>, part: string, after: seq<string>)
    ensures TakeAll(e, seen, before + [part] + after) == TakeAll(e, Take(e, seen, part), before + after)
  {
    hide Take, TakeAll;
    TakeAllAppend(e, Take(e, seen, part), before, after);
    TakeFirst(e, seen, before, part);
    TakeAllSnoc(e, seen, before, part);
    TakeAllAppend(e, seen, before + [part], after);
  }

  lemma ReorderedQueryParsesAlike(e: Endpoint, a: seq<string>, b: seq<string>)
    requires multiset(a) == multiset(b)
    ensures ParseParts(e, a) == ParseParts(e, b)
  {
    OrderDoesNotMatter(e, Some(NOTHING), a, b);
  }

  lemma SameKeyTwice(e: Endpoint, seen: Option<Seen>, a: string, b: string)
    requires Decoded(a).Some? && Decoded(b).Some? && Decoded(a).value.0 == Decoded(b).value.0
    ensures Take(e, Take(e, seen, a), b) == None
  {
    hide Decoded, SectionOf, LimitOf;
    NamesDiffer();
  }

  /** Two parts that decode to one key are always rejected, however they spell it and wherever they stand. */
  lemma RepeatedKeyRejected(e: Endpoint, parts: seq<string>, i: nat, j: nat)
    requires i < j < |parts| && Decoded(parts[i]).Some? && Decoded(parts[j]).Some?
    requires Decoded(parts[i]).value.0 == Decoded(parts[j]).value.0
    ensures ParseParts(e, parts) == None
  {
    hide Take, TakeAll, Decoded;
    var seen := Some(NOTHING);
    var upToI, between, after := parts[..i], parts[i + 1..j], parts[j + 1..];
    assert parts == upToI + [parts[i]] + (between + [parts[j]] + after);
    MoveToFront(e, seen, upToI, parts[i], between + [parts[j]] + after);
    assert upToI + (between + [parts[j]] + after) == (upToI + between) + [parts[j]] + after;
    MoveToFront(e, Take(e, seen, parts[i]), upToI + between, parts[j], after);
    SameKeyTwice(e, seen, parts[i], parts[j]);
    FailureStays(e, upToI + between + after);
  }

  // ---- exactly what is accepted ----

  /** Which of its variables a part assigns. */
  datatype Slot = SectionSlot | LimitSlot | CursorSlot

  function SlotOf(item: Item): Slot {
    match item case SectionItem(_) => SectionSlot case LimitItem(_) => LimitSlot case CursorItem(_) => CursorSlot
  }

  predicate Holds(s: Seen, slot: Slot) {
    match slot case SectionSlot => s.section.Some? case LimitSlot => s.limit.Some? case CursorSlot => s.cursor.Some?
  }

  predicate Contains(s: Seen, item: Item) {
    match item
    case SectionItem(section) => s.section == Some(section)
    case LimitItem(limit) => s.limit == Some(limit)
    case CursorItem(cursor) => s.cursor == Some(cursor)
  }

  /** Every part is a parameter of the endpoint with an acceptable value, and no two are the same parameter. */
  ghost predicate AllDifferent(e: Endpoint, parts: seq<string>) {
    && (forall i | 0 <= i < |parts| :: ItemOf(e, parts[i]).Some?)
    && (forall i, j | 0 <= i < j < |parts| :: SlotOf(ItemOf(e, parts[i]).value) != SlotOf(ItemOf(e, parts[j]).value))
  }

  ghost predicate Given(e: Endpoint, parts: seq<string>, item: Item) {
    exists i :: 0 <= i < |parts| && ItemOf(e, parts[i]) == Some(item)
  }

  /** One turn puts the part's item into a slot that was free, or fails. */
  lemma TakeOne(e: Endpoint, s: Seen, part: string)
    ensures Take(e, Some(s), part).Some? <==> ItemOf(e, part).Some? && !Holds(s, SlotOf(ItemOf(e, part).value))
    ensures Take(e, Some(s), part).Some? ==>
      var t := Take(e, Some(s), part).value;
      && (forall item :: Contains(t, item) <==> Contains(s, item) || ItemOf(e, part) == Some(item))
      && (forall slot :: Holds(t, slot) <==> Holds(s, slot) || slot == SlotOf(ItemOf(e, part).value))
  {
    hide ItemOf;
  }

  ghost predicate Filled(e: Endpoint, parts: seq<string>, slot: Slot) {
    exists i :: 0 <= i < |parts| && ItemOf(e, parts[i]).Some? && SlotOf(ItemOf(e, parts[i]).value) == slot
  }

  /** One part more. */
  lemma PartsSnoc(e: Endpoint, parts: seq<string>, last: string)
    ensures AllDifferent(e, parts + [last])
       <==> AllDifferent(e, parts) && ItemOf(e, last).Some? && !Filled(e, parts, SlotOf(ItemOf(e, last).value))
    ensures forall item :: Given(e, parts + [last], item) <==> Given(e, parts, item) || ItemOf(e, last) == Some(item)
    ensures ItemOf(e, last).Some? ==>
      var own := SlotOf(ItemOf(e, last).value);
      forall slot :: Filled(e, parts + [last], slot) <==> Filled(e, parts, slot) || slot == own
  {
    hide ItemOf, SlotOf;
    var all := parts + [last];
    assert forall i | 0 <= i < |parts| :: all[i] == parts[i];
    assert all[|parts|] == last;
  }

  /** The state of the loop holds what the parts gave. */
  ghost predicate Reflects(e: Endpoint, parts: seq<string>, s: Seen) {
    && (forall item :: Contains(s, item) <==> Given(e, parts, item))
    && (forall slot :: Holds(s, slot) <==> Filled(e, parts, slot))
  }

  lemma OneMorePart(e: Endpoint, parts: seq<string>, last: string, s: Seen)
    requires AllDifferent(e, parts) && Reflects(e, parts, s)
    ensures Take(e, Some(s), last).Some? <==> AllDifferent(e, parts + [last])
    ensures Take(e, Some(s), last).Some? ==> Reflects(e, parts + [last], Take(e, Some(s), last).value)
  {
    hide ItemOf, SlotOf, Take, AllDifferent, Given, Filled, Contains, Holds;
    PartsSnoc(e, parts, last);
    TakeOne(e, s, last);
  }

  lemma OnePartTooMany(e: Endpoint, parts: seq<string>, last: string)
    requires !AllDifferent(e, parts)
    ensures Take(e, None, last) == None && !AllDifferent(e, parts + [last])
  {
    hide ItemOf, SlotOf, AllDifferent, Filled, Given;
    PartsSnoc(e, parts, last);
  }

  lemma {:induction false} TakesAllDifferent(e: Endpoint, parts: seq<string>)
    ensures TakeAll(e, Some(NOTHING), parts).Some? <==> AllDifferent(e, parts)
    ensures AllDifferent(e, parts) ==> Reflects(e, parts, TakeAll(e, Some(NOTHING), parts).value)
    decreases |parts|
  {
    if parts == [] {
      NoParts(e);
    } else {
      hide Take, TakeAll, AllDifferent, Reflects;
      var n := |parts| - 1;
      var before, last := parts[..n], parts[n];
      assert parts == before + [last];
      TakesAllDifferent(e, before);
      TakeAllSnoc(e, Some(NOTHING), before, last);
      var seen := TakeAll(e, Some(NOTHING), before);
      if seen.Some? { OneMorePart(e, before, last, seen.value); } else { OnePartTooMany(e, before, last); }
    }
  }

  lemma NoParts(e: Endpoint)
    ensures TakeAll(e, Some(NOTHING), []) == Some(NOTHING)
    ensures AllDifferent(e, []) && Reflects(e, [], NOTHING)
  {
  }

  /**
   * A query is accepted exactly when every part is a parameter of the endpoint with an acceptable value, none
   * is given twice, and the section is there where one is needed. It then carries what was given, and the
   * default for a limit that was not.
   */
  lemma AcceptedIff(e: Endpoint, parts: seq<string>)
    ensures ParseParts(e, parts).Some?
       <==> AllDifferent(e, parts) && (e.hasSection ==> exists section :: Given(e, parts, SectionItem(section)))
    ensures ParseParts(e, parts).Some? ==>
      var q := ParseParts(e, parts).value;
      && (forall section :: q.section == Some(section) <==> Given(e, parts, SectionItem(section)))
      && (forall limit :: Given(e, parts, LimitItem(limit)) ==> q.limit == limit)
      && ((forall limit :: !Given(e, parts, LimitItem(limit))) ==> q.limit == e.defaultLimit)
      && (forall cursor :: q.cursor == Some(cursor) <==> Given(e, parts, CursorItem(cursor)))
  {
    hide AllDifferent, Given, TakeAll;
    TakesAllDifferent(e, parts);
    if AllDifferent(e, parts) {
      var s := TakeAll(e, Some(NOTHING), parts).value;
      assert Reflects(e, parts, s);
      forall section ensures s.section == Some(section) <==> Given(e, parts, SectionItem(section)) {
        assert Contains(s, SectionItem(section)) <==> Given(e, parts, SectionItem(section));
      }
      forall limit ensures s.limit == Some(limit) <==> Given(e, parts, LimitItem(limit)) {
        assert Contains(s, LimitItem(limit)) <==> Given(e, parts, LimitItem(limit));
      }
      forall cursor ensures s.cursor == Some(cursor) <==> Given(e, parts, CursorItem(cursor)) {
        assert Contains(s, CursorItem(cursor)) <==> Given(e, parts, CursorItem(cursor));
      }
      assert s.section.Some? ==> Given(e, parts, SectionItem(s.section.value));
      assert s.limit.Some? ==> Given(e, parts, LimitItem(s.limit.value));
    }
  }

  function NameOf(slot: Slot): string {
    match slot case SectionSlot => "section" case LimitSlot => "limit" case CursorSlot => "cursor"
  }

  /** Only the parameters of the endpoint are accepted, under their exact names. */
  lemma ItemsAreNamed(e: Endpoint, part: string)
    ensures ItemOf(e, part).Some? ==>
      && Decoded(part).Some?
      && Decoded(part).value.0 == NameOf(SlotOf(ItemOf(e, part).value))
    ensures ItemOf(e, part).Some? && ItemOf(e, part).value.SectionItem? ==>
      e.hasSection && Decoded(part).value.1 == SectionName(ItemOf(e, part).value.section)
    ensures ItemOf(e, part).Some? && ItemOf(e, part).value.CursorItem? ==>
      ItemOf(e, part).value.cursor == Decoded(part).value.1 && Decoded(part).value.1 != ""
  {
    hide Decoded, LimitOf, Utf16Length;
  }

  /** A limit is accepted in one spelling only: the decimal digits of a number in range. */
  lemma LimitHasOneSpelling(e: Endpoint, value: string, n: int)
    requires 10 <= e.maxLimit < 100
    ensures LimitOf(e, value) == Some(n) <==> 1 <= n <= e.maxLimit && value == DecimalText(n)
  {
    LimitUndoesDecimal(e, n);
    if LimitOf(e, value) == Some(n) {
      if |value| == 2 {
        assert DecimalText(n) == DecimalText(n / 10) + [('0' as int + n % 10) as char];
      }
      assert value == DecimalText(n);
    }
  }

  /** No query at all: the remediation queue rejects it for want of a section, the other two answer ten rows. */
  lemma BareUrl(path: string)
    requires '?' !in path
    ensures Parse(REMEDIATION_QUEUE, path) == None
    ensures Parse(FINDING_DISCOVERY, path) == Parse(PRODUCT_MATCH_CANDIDATES, path) == Some(Query(None, 10, None))
  {
    assert IndexOf(path, '?') == |path|;
  }

  /** What follows a hash is not part of the query. */
  lemma FragmentIsIgnored(e: Endpoint, path: string, query: string, fragment: string)
    requires '?' !in path && '#' !in query
    ensures Parse(e, path + ("?" + query + "#" + fragment)) == Parse(e, path + ("?" + query))
  {
    hide ParseParts, Split, QueryOf, IndexOf;
    QueryOfUrl(path, query);
    QueryBeforeFragment(path, query, fragment);
  }

  lemma QueryBeforeFragment(path: string, query: string, fragment: string)
    requires '?' !in path && '#' !in query
    ensures QueryOf(path + ("?" + query + "#" + fragment)) == query
  {
    hide Split, IndexOf;
    var rest := query + ['#'] + fragment;
    assert path + ("?" + query + "#" + fragment) == path + ['?'] + rest;
    IndexOfPrefix(path, '?', rest);
    assert (path + ['?'] + rest)[|path| + 1..] == rest;
    SplitCons(query, '#', fragment);
  }

  /** A part without an equals sign has an empty value, which no parameter accepts. */
  lemma BarePartRejected(e: Endpoint, part: string)
    requires '=' !in part
    ensures ItemOf(e, part) == None
  {
    NoValue(part);
    hide Decoded, LimitOf;
    assert LimitOf(e, "") == None by { NoLimit(e); }
  }

  lemma NoValue(part: string)
    requires '=' !in part
    ensures Decoded(part).Some? ==> Decoded(part).value.1 == ""
  {
    assert IndexOf(part, '=') == |part|;
    assert PlusToSpace("") == "";
  }

  lemma NoLimit(e: Endpoint)
    ensures LimitOf(e, "") == None
  {
  }

  /** Some part decodes to this key. */
  ghost predicate Mentions(parts: seq<string>, key: string) {
    exists i :: 0 <= i < |parts| && Decoded(parts[i]).Some? && Decoded(parts[i]).value.0 == key
  }

  /** Without a section every remediation-queue query is rejected; without a limit a page holds ten rows. */
  lemma MissingParameters(parts: seq<string>, e: Endpoint)
    requires e == FINDING_DISCOVERY || e == PRODUCT_MATCH_CANDIDATES
    ensures !Mentions(parts, "section") ==> ParseParts(REMEDIATION_QUEUE, parts) == None
    ensures !Mentions(parts, "limit") && ParseParts(e, parts).Some? ==> ParseParts(e, parts).value.limit == 10
  {
    hide Decoded, ItemOf, ParseParts, AllDifferent;
    NamesDiffer();
    AcceptedIff(REMEDIATION_QUEUE, parts);
    AcceptedIff(e, parts);
    forall i | 0 <= i < |parts|
      ensures ItemOf(REMEDIATION_QUEUE, parts[i]).Some? && ItemOf(REMEDIATION_QUEUE, parts[i]).value.SectionItem? ==>
                Decoded(parts[i]).Some? && Decoded(parts[i]).value.0 == "section"
      ensures ItemOf(e, parts[i]).Some? && ItemOf(e, parts[i]).value.LimitItem? ==>
                Decoded(parts[i]).Some? && Decoded(parts[i]).value.0 == "limit"
    {
      ItemsAreNamed(REMEDIATION_QUEUE, parts[i]);
      ItemsAreNamed(e, parts[i]);
    }
  }

  // ---- the client ----

  type Params = seq<(string, string)>

  function Pair(p: (string, string)): string { Encode(p.0) + "=" + Encode(p.1) }

  function Pairs(params: Params): seq<string> {
    seq(|params|, i requires 0 <= i < |params| => Pair(params[i]))
  }

  function NonEmpty(params: Params): Params {
    if params == [] then []
    else (if |params[0].1| > 0 then [params[0]] else []) + NonEmpty(params[1..])
  }

  /** `queryString`: parameters with an empty value are not sent. */
  function QueryString(params: Params): string {
    var encoded := Join(Pairs(NonEmpty(params)), '&');
    if encoded == "" then "" else "?" + encoded
  }

  /** The parameter map of `readRemediationQueue`. */
  function RemediationParams(section: Section, limit: Option<int>, cursor: Option<string>): Params {
    [("section", SectionName(section))]
    + (if limit.Some? then [("limit", DecimalText(limit.value))] else [])
    + (if cursor.Some? && |cursor.value| > 0 then [("cursor", cursor.value)] else [])
  }

  /** The parameter map of `listControlledFindingTargets` and `listProductMatchCandidates`: the page limit is 10. */
  function PageParams(cursor: Option<string>): Params {
    [("limit", DecimalText(10))] + (if cursor.Some? then [("cursor", cursor.value)] else [])
  }

  // ---- round trip ----

  lemma PairSafe(p: (string, string), c: char)
    requires !Safe(c) && c != '='
    ensures c !in Pair(p)
  {
    EncodeSafe(p.0);
    EncodeSafe(p.1);
  }

  lemma PairDecodes(p: (string, string))
    ensures Decoded(Pair(p)) == Some(p)
  {
    EncodeSafe(p.0);
    assert '=' !in Encode(p.0);
    var part := Pair(p);
    assert part == Encode(p.0) + ['='] + Encode(p.1);
    IndexOfPrefix(Encode(p.0), '=', Encode(p.1));
    assert part[..|Encode(p.0)|] == Encode(p.0) && part[|Encode(p.0)| + 1..] == Encode(p.1);
    DecodeUndoesEncode(p.0);
    DecodeUndoesEncode(p.1);
  }

  lemma {:induction false} JoinSafe(params: Params, c: char)
    requires !Safe(c) && c != '=' && c != '&'
    ensures c !in Join(Pairs(params), '&')
  {
    if params != [] {
      PairSafe(params[0], c);
      assert Pairs(params)[1..] == Pairs(params[1..]);
      JoinSafe(params[1..], c);
    }
  }

  lemma NoSeparator(s: string, sep: char)
    requires sep !in s
    ensures Split(s, sep) == [s]
  {
    SplitJoin([s], sep);
  }

  lemma PrintedNonempty(params: Params)
    requires |params| > 0
    ensures Join(Pairs(params), '&') != ""
  {
    hide Encode;
    assert |Pairs(params)[0]| > 0;
  }

  lemma QueryOfUrl(path: string, encoded: string)
    requires '?' !in path && '#' !in encoded
    ensures QueryOf(path + ("?" + encoded)) == encoded
  {
    var url := path + ['?'] + encoded;
    assert path + ("?" + encoded) == url;
    IndexOfPrefix(path, '?', encoded);
    assert url[|path| + 1..] == encoded;
    NoSeparator(encoded, '#');
  }

  lemma SplitPrinted(params: Params)
    requires |params| > 0
    ensures Split(Join(Pairs(params), '&'), '&') == Pairs(params)
  {
    forall p | p in Pairs(params) ensures '&' !in p {
      var i :| 0 <= i < |params| && Pairs(params)[i] == p;
      PairSafe(params[i], '&');
    }
    SplitJoin(Pairs(params), '&');
  }

  /** Whatever non-empty parameters the client prints, the server's loop sees exactly those parts. */
  lemma ServerSeesPrinted(e: Endpoint, path: string, params: Params)
    requires '?' !in path && |params| > 0 && NonEmpty(params) == params
    ensures Parse(e, path + QueryString(params)) == ParseParts(e, Pairs(params))
  {
    hide Pairs, Join, Split, ParseParts, QueryOf, NonEmpty;
    PrintedNonempty(params);
    JoinSafe(params, '#');
    QueryOfUrl(path, Join(Pairs(params), '&'));
    SplitPrinted(params);
  }

  /** The server accepts the printed form of a number exactly within its range, and reads it back. */
  lemma LimitUndoesDecimal(e: Endpoint, n: int)
    requires 10 <= e.maxLimit < 100
    ensures LimitOf(e, DecimalText(n)) == if 1 <= n <= e.maxLimit then Some(n) else None
  {
    if 10 <= n < 100 {
      assert DecimalText(n) == DecimalText(n / 10) + [('0' as int + n % 10) as char];
    } else if n >= 100 {
      assert |DecimalText(n / 10)| >= 2;
    } else if n < 0 {
      assert DecimalText(n)[0] == '-';
    }
  }

  predicate CursorAccepted(e: Endpoint, cursor: Option<string>) {
    cursor.Some? ==> 0 < |cursor.value| && Utf16Length(cursor.value) <= e.maxCursorLength
  }

  lemma SectionUndoesName(section: Section)
    ensures SectionOf(SectionName(section)) == Some(section) && |SectionName(section)| > 0
  {
    assert "ranked"[0] == 'r' && "incomparable"[0] == 'i' && "not_calculated"[0] == 'n';
  }

  lemma PairItems(e: Endpoint, section: Section, limit: int, cursor: string)
    ensures e.hasSection ==> ItemOf(e, Pair(("section", SectionName(section)))) == Some(SectionItem(section))
    ensures ItemOf(e, Pair(("limit", DecimalText(limit)))) ==
      match LimitOf(e, DecimalText(limit)) case None => None case Some(n) => Some(LimitItem(n))
    ensures ItemOf(e, Pair(("cursor", cursor)))
         == if CursorAccepted(e, Some(cursor)) then Some(CursorItem(cursor)) else None
  {
    hide Decoded, Pair, SectionOf, SectionName, LimitOf, DecimalText, Utf16Length;
    NamesDiffer();
    PairDecodes(("section", SectionName(section)));
    PairDecodes(("limit", DecimalText(limit)));
    PairDecodes(("cursor", cursor));
    SectionUndoesName(section);
  }

  /**
   * For every section, limit and cursor the client can ask for, the server reads back exactly those,
   * with its default for a limit not given, unless the limit or the cursor is out of its range.
   */
  lemma RemediationQueryRoundTrip(path: string, section: Section, limit: Option<int>, cursor: Option<string>)
    requires '?' !in path
    ensures var e := REMEDIATION_QUEUE;
      var sent := if cursor.Some? && cursor.value == "" then None else cursor;
      Parse(e, path + QueryString(RemediationParams(section, limit, cursor))) ==
        if (limit.None? || 1 <= limit.value <= 50) && CursorAccepted(e, sent)
        then Some(Query(Some(section), if limit.None? then 20 else limit.value, sent))
        else None
  {
    hide Pair, SectionName, DecimalText, ItemOf, LimitOf, Utf16Length, QueryString, Parse, NonEmpty;
    var e := REMEDIATION_QUEUE;
    var params := RemediationParams(section, limit, cursor);
    RemediationParamsNonEmpty(section, limit, cursor);
    ServerSeesPrinted(e, path, params);
    var n := if limit.Some? then limit.value else 1;
    var c := if cursor.Some? then cursor.value else "";
    PairItems(e, section, n, c);
    LimitUndoesDecimal(e, n);
    ThreeTurns(e, Pairs(params));
  }

  lemma RemediationParamsNonEmpty(section: Section, limit: Option<int>, cursor: Option<string>)
    ensures NonEmpty(RemediationParams(section, limit, cursor)) == RemediationParams(section, limit, cursor)
  {
    hide SectionName, DecimalText;
    SectionUndoesName(section);
    var params := RemediationParams(section, limit, cursor);
    AllNonEmpty(params);
  }

  lemma {:induction false} AllNonEmpty(params: Params)
    requires forall i | 0 <= i < |params| :: |params[i].1| > 0
    ensures NonEmpty(params) == params
  {
    if params != [] {
      AllNonEmpty(params[1..]);
      assert params == [params[0]] + params[1..];
    }
  }

  lemma ThreeTurns(e: Endpoint, parts: seq<string>)
    requires |parts| <= 3
    ensures TakeAll(e, Some(NOTHING), parts) ==
      if |parts| == 0 then Some(NOTHING)
      else if |parts| == 1 then Take(e, Some(NOTHING), parts[0])
      else if |parts| == 2 then Take(e, Take(e, Some(NOTHING), parts[0]), parts[1])
      else Take(e, Take(e, Take(e, Some(NOTHING), parts[0]), parts[1]), parts[2])
  {
    hide Take;
    if |parts| > 0 {
      var rest := parts[1..];
      assert TakeAll(e, Take(e, Some(NOTHING), parts[0]), rest) ==
        if rest == [] then Take(e, Some(NOTHING), parts[0])
        else TakeAll(e, Take(e, Take(e, Some(NOTHING), parts[0]), rest[0]), rest[1..]);
    }
  }

  /** The same for the two paged endpoints, whose client always asks for ten rows. */
  lemma PageQueryRoundTrip(e: Endpoint, path: string, cursor: Option<string>)
    requires e == FINDING_DISCOVERY || e == PRODUCT_MATCH_CANDIDATES
    requires '?' !in path
    ensures var sent := if cursor.Some? && cursor.value == "" then None else cursor;
      Parse(e, path + QueryString(PageParams(cursor))) ==
        if CursorAccepted(e, sent) then Some(Query(None, 10, sent)) else None
  {
    hide Pair, DecimalText, ItemOf, LimitOf, Utf16Length, Parse, Take;
    var sent := if cursor.Some? && cursor.value == "" then None else cursor;
    DroppedCursor(cursor);
    AllNonEmpty(PageParams(sent));
    ServerSeesPrinted(e, path, PageParams(sent));
    PageTurns(e, sent);
  }

  lemma DroppedCursor(cursor: Option<string>)
    ensures QueryString(PageParams(cursor))
         == QueryString(PageParams(if cursor.Some? && cursor.value == "" then None else cursor))
  {
    hide DecimalText;
    assert PageParams(None)[1..] == [];
    if cursor == Some("") {
      var page := ("limit", DecimalText(10));
      assert NonEmpty([("cursor", "")]) == [];
      assert PageParams(cursor)[1..] == [("cursor", "")];
      assert NonEmpty([page]) == [page] + NonEmpty([]);
    }
  }

  lemma PageTurns(e: Endpoint, cursor: Option<string>)
    requires e == FINDING_DISCOVERY || e == PRODUCT_MATCH_CANDIDATES
    ensures ParseParts(e, Pairs(PageParams(cursor)))
         == if CursorAccepted(e, cursor) then Some(Query(None, 10, cursor)) else None
  {
    hide Pair, DecimalText, ItemOf, LimitOf, Utf16Length;
    PairItems(e, Ranked, 10, if cursor.Some? then cursor.value else "");
    LimitUndoesDecimal(e, 10);
    ThreeTurns(e, Pairs(PageParams(cursor)));
  }
}
