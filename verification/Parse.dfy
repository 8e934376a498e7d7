/**
 Feed documents reduced to storable episodes: crawl/parse.go. The XML library's result, the
 dates it lets the crawler read and the numbers strconv reads are inputs; the hash is a
 parameter, assumed injective where a lemma needs it.
 */
module Parse {
  import opened Prelude

  /** One <item> as the XML library hands it over. */
  datatype Item = Item(
    guid: string, title: string, description: string,
    enclosureUrl: string, enclosureLength: Option<int>, enclosureType: string,
    author: string, pubDate: string, published: Option<int>,
    link: string, explicit: string, duration: string,
    episodeNumber: Option<int>, seasonNumber: Option<int>, episodeType: string, imageHref: string)

  datatype Channel = Channel(newFeedUrl: string, items: seq<Item>)

  datatype GuidSource = FromFeed | FromEnclosureHash | Derived

  /** One episode, ready to be written. */
  datatype EpisodeUpsert = EpisodeUpsert(
    guid: string, guidSource: GuidSource,
    title: string, description: string,
    audioUrl: string, audioLength: int, audioType: string, author: string,
    pubDate: Option<int>, pubDateRaw: string,
    link: string, explicit: bool, duration: string,
    episodeNo: Option<int>, seasonNo: Option<int>, episodeType: string, imageUrl: string,
    position: nat)

  datatype ParsedFeed = ParsedFeed(newFeedUrl: string, episodes: seq<EpisodeUpsert>)

  /** What the model takes from outside: the hash and the XML library. */
  datatype Codec = Codec(sha: string -> string, xml: string -> Option<Channel>)

  ghost predicate Injective(f: string -> string) {
    forall x, y :: f(x) == f(y) ==> x == y
  }

  // ---- Trimming ----

  predicate IsSpace(c: char) {
    || '\t' <= c <= '\r' || c == ' ' || c == '\U{85}' || c == '\U{A0}' || c == '\U{1680}'
    || '\U{2000}' <= c <= '\U{200A}' || c == '\U{2028}' || c == '\U{2029}' || c == '\U{202F}'
    || c == '\U{205F}' || c == '\U{3000}'
  }

  function TrimLeft(s: string): string {
    if s != [] && IsSpace(s[0]) then TrimLeft(s[1..]) else s
  }

  function TrimRight(s: string): string {
    if s != [] && IsSpace(s[|s| - 1]) then TrimRight(s[..|s| - 1]) else s
  }

  function TrimSpace(s: string): string {
    TrimRight(TrimLeft(s))
  }

  predicate AllSpace(s: string) {
    forall i :: 0 <= i < |s| ==> IsSpace(s[i])
  }

  /** text is raw without the white space at its ends. */
  ghost predicate IsTrimmed(raw: string, text: string) {
    && (text != "" ==> !IsSpace(text[0]) && !IsSpace(text[|text| - 1]))
    && exists before, after :: AllSpace(before) && AllSpace(after) && raw == before + text + after
  }

  lemma {:induction false} TrimLeftDrops(s: string) returns (n: nat)
    ensures n <= |s| && TrimLeft(s) == s[n..]
    ensures forall i :: 0 <= i < n ==> IsSpace(s[i])
    ensures n < |s| ==> !IsSpace(s[n])
  {
    n := 0;
    if s != [] && IsSpace(s[0]) {
      var rest := s[1..];
      var m := TrimLeftDrops(rest);
      n := m + 1;
      assert rest[m..] == s[n..];
      assert forall i :: 0 < i < n ==> s[i] == rest[i - 1];
    }
  }

  lemma {:induction false} TrimRightDrops(s: string) returns (n: nat)
    ensures n <= |s| && TrimRight(s) == s[..n]
    ensures forall i :: n <= i < |s| ==> IsSpace(s[i])
    ensures n > 0 ==> !IsSpace(s[n - 1])
  {
    n := |s|;
    if s != [] && IsSpace(s[|s| - 1]) {
      var rest := s[..|s| - 1];
      n := TrimRightDrops(rest);
      assert rest[..n] == s[..n];
      assert forall i :: 0 <= i < |rest| ==> s[i] == rest[i];
    }
  }

  /** TrimSpace drops the white space at both ends, and nothing else. */
  lemma TrimSpaceTrims(s: string)
    ensures IsTrimmed(s, TrimSpace(s))
  {
    var n := TrimLeftDrops(s);
    var left := s[n..];
    var m := TrimRightDrops(left);
    var before, text, after := s[..n], left[..m], left[m..];
    assert s == before + text + after;
    assert AllSpace(before) && AllSpace(after);
  }

  lemma TrimmedTwice(s: string)
    ensures TrimSpace(TrimSpace(s)) == TrimSpace(s)
  {
    TrimSpaceTrims(s);
  }

  // ---- Identity ----

  function GuidOf(item: Item): string {
    TrimSpace(item.guid)
  }

  function EnclosureOf(item: Item): string {
    TrimSpace(item.enclosureUrl)
  }

  /** How many items carry the guid. */
  function Count(items: seq<Item>, guid: string): nat {
    if items == [] then 0
    else Count(items[..|items| - 1], guid) + (if GuidOf(items[|items| - 1]) == guid then 1 else 0)
  }

  /** The usable guids that appear more than once. */
  function Duplicated(items: seq<Item>): set<string> {
    set i | 0 <= i < |items| && GuidOf(items[i]) != "" && Count(items, GuidOf(items[i])) > 1 :: GuidOf(items[i])
  }

  lemma {:induction false} CountPositive(items: seq<Item>, guid: string)
    ensures Count(items, guid) > 0 <==> exists i :: 0 <= i < |items| && GuidOf(items[i]) == guid
  {
    if items != [] {
      var front := items[..|items| - 1];
      CountPositive(front, guid);
      if i :| 0 <= i < |items| && GuidOf(items[i]) == guid {
        assert i < |front| ==> GuidOf(front[i]) == guid;
      }
      if i :| 0 <= i < |front| && GuidOf(front[i]) == guid {
        assert GuidOf(items[i]) == guid;
      }
    }
  }

  /** duplicatedGuids: counts first, then collects what was counted twice. */
  method DuplicatedGuids(items: seq<Item>) returns (duplicated: set<string>)
    ensures duplicated == Duplicated(items)
  {
    var counts: map<string, int> := map[];
    for i := 0 to |items|
      invariant forall g :: g in counts <==> g != "" && Count(items[..i], g) > 0
      invariant forall g :: g in counts ==> counts[g] == Count(items[..i], g)
    {
      assert items[..i + 1][..i] == items[..i];
      var guid := GuidOf(items[i]);
      if guid != "" {
        counts := counts[guid := (if guid in counts then counts[guid] else 0) + 1];
      }
    }
    assert items[..|items|] == items;

    duplicated := {};
    var pending := counts.Keys;
    while pending != {}
      invariant pending <= counts.Keys
      invariant duplicated == set g | g in counts && g !in pending && counts[g] > 1
      decreases pending
    {
      var guid :| guid in pending;
      if counts[guid] > 1 {
        duplicated := duplicated + {guid};
      }
      pending := pending - {guid};
    }
    forall g ensures g in duplicated <==> g in Duplicated(items) {
      CountedTwice(items, g);
    }
  }

  lemma CountedTwice(items: seq<Item>, guid: string)
    ensures guid in Duplicated(items) <==> guid != "" && Count(items, guid) > 1
  {
    CountPositive(items, guid);
  }

  function Digit(d: nat): char
    requires d < 10
  {
    (48 + d) as char
  }

  function Decimal(n: nat): string {
    if n < 10 then [Digit(n)] else Decimal(n / 10) + [Digit(n % 10)]
  }

  /** What is hashed for an item with neither a usable guid nor an enclosure. */
  function DerivedText(item: Item, position: nat): string {
    Decimal(position) + "\0" + item.title + "\0" + item.pubDate
  }

  function EpisodeIdentity(sha: string -> string, item: Item, position: nat, duplicated: set<string>)
    : (string, GuidSource)
  {
    if GuidOf(item) != "" && GuidOf(item) !in duplicated then (GuidOf(item), FromFeed)
    else if EnclosureOf(item) != "" then (sha(EnclosureOf(item)), FromEnclosureHash)
    else (sha(DerivedText(item, position)), Derived)
  }

  function ParseLength(raw: Option<int>): int {
    if raw == None || raw.value < 0 then 0 else raw.value
  }

  function ToUpsert(sha: string -> string, item: Item, position: nat, duplicated: set<string>): EpisodeUpsert {
    var (guid, source) := EpisodeIdentity(sha, item, position, duplicated);
    EpisodeUpsert(
      guid, source, TrimSpace(item.title), item.description,
      EnclosureOf(item), ParseLength(item.enclosureLength), TrimSpace(item.enclosureType), TrimSpace(item.author),
      item.published, item.pubDate,
      TrimSpace(item.link), item.explicit == "true", TrimSpace(item.duration),
      item.episodeNumber, item.seasonNumber, TrimSpace(item.episodeType), TrimSpace(item.imageHref),
      position)
  }

  function Episodes(sha: string -> string, items: seq<Item>): (eps: seq<EpisodeUpsert>)
    ensures |eps| == |items|
    ensures forall i :: 0 <= i < |eps| ==> eps[i].position == i
  {
    seq(|items|, i requires 0 <= i < |items| => ToUpsert(sha, items[i], i, Duplicated(items)))
  }

  lemma NextEpisode(sha: string -> string, items: seq<Item>, i: nat)
    requires i < |items|
    ensures Episodes(sha, items)[..i + 1]
            == Episodes(sha, items)[..i] + [ToUpsert(sha, items[i], i, Duplicated(items))]
  {
    var eps := Episodes(sha, items);
    assert eps[i] == ToUpsert(sha, items[i], i, Duplicated(items));
    assert eps[..i + 1] == eps[..i] + [eps[i]];
  }

  /** None when the document does not parse. */
  function ParseDocument(codec: Codec, body: string): Option<ParsedFeed> {
    match codec.xml(body)
    case None => None
    case Some(channel) =>
      Some(ParsedFeed(TrimSpace(channel.newFeedUrl), Episodes(codec.sha, channel.items)))
  }

  /** The number a string of decimal digits stands for. */
  function NumberOf(digits: string): int {
    if digits == "" then 0
    else NumberOf(digits[..|digits| - 1]) * 10 + (digits[|digits| - 1] as int - '0' as int)
  }

  /** The number in decimal, without leading zeros. */
  ghost predicate IsDecimal(n: nat, digits: string) {
    && digits != "" && (forall i :: 0 <= i < |digits| ==> '0' <= digits[i] <= '9')
    && NumberOf(digits) == n && (digits[0] == '0' ==> |digits| == 1)
  }

  lemma {:induction false} DecimalIsDecimal(n: nat)
    ensures IsDecimal(n, Decimal(n))
    ensures n > 0 ==> Decimal(n)[0] != '0'
  {
    if n >= 10 {
      DecimalIsDecimal(n / 10);
      assert Decimal(n)[..|Decimal(n)| - 1] == Decimal(n / 10);
    } else {
      assert Decimal(n)[..0] == "" && NumberOf("") == 0;
    }
  }

  /** The key of an episode: its guid, or else a hash of its enclosure, or else of place, title and date. */
  ghost predicate IsIdentity(sha: string -> string, items: seq<Item>, i: nat, guid: string, source: GuidSource)
    requires i < |items|
  {
    if UniqueGuid(items, i) then IsTrimmed(items[i].guid, guid) && source == FromFeed
    else if !AllSpace(items[i].enclosureUrl) then
      source == FromEnclosureHash && exists url :: IsTrimmed(items[i].enclosureUrl, url) && guid == sha(url)
    else
      && source == Derived
      && exists place :: IsDecimal(i, place) && guid == sha(place + "\0" + items[i].title + "\0" + items[i].pubDate)
  }

  /** What the episode of an item holds. */
  ghost predicate IsEpisodeOf(item: Item, e: EpisodeUpsert) {
    && IsTrimmed(item.title, e.title) && e.description == item.description
    && IsTrimmed(item.enclosureUrl, e.audioUrl) && IsTrimmed(item.enclosureType, e.audioType)
    && e.audioLength == (if item.enclosureLength.Some? then Max(item.enclosureLength.value, 0) else 0)
    && IsTrimmed(item.author, e.author)
    && e.pubDate == item.published && e.pubDateRaw == item.pubDate
    && IsTrimmed(item.link, e.link) && (e.explicit <==> item.explicit == "true")
    && IsTrimmed(item.duration, e.duration)
    && e.episodeNo == item.episodeNumber && e.seasonNo == item.seasonNumber
    && IsTrimmed(item.episodeType, e.episodeType) && IsTrimmed(item.imageHref, e.imageUrl)
  }

  /** The episodes of a channel: one an item, in order. */
  ghost predicate AreEpisodesOf(sha: string -> string, items: seq<Item>, eps: seq<EpisodeUpsert>) {
    && |eps| == |items|
    && forall i :: 0 <= i < |items| ==>
         && eps[i].position == i && IsEpisodeOf(items[i], eps[i])
         && IsIdentity(sha, items, i, eps[i].guid, eps[i].guidSource)
  }

  lemma EpisodeHolds(sha: string -> string, item: Item, position: nat, duplicated: set<string>)
    ensures IsEpisodeOf(item, ToUpsert(sha, item, position, duplicated))
  {
    TrimSpaceTrims(item.title);
    TrimSpaceTrims(item.enclosureUrl);
    TrimSpaceTrims(item.enclosureType);
    TrimSpaceTrims(item.author);
    TrimSpaceTrims(item.link);
    TrimSpaceTrims(item.duration);
    TrimSpaceTrims(item.episodeType);
    TrimSpaceTrims(item.imageHref);
  }

  lemma TrimsToNothing(raw: string, text: string)
    requires IsTrimmed(raw, text)
    ensures text == "" <==> AllSpace(raw)
  {
    var before, after :| AllSpace(before) && AllSpace(after) && raw == before + text + after;
    assert text != "" ==> raw[|before|] == text[0];
  }

  lemma EpisodeIsIdentified(sha: string -> string, items: seq<Item>, i: nat)
    requires i < |items|
    ensures var e := Episodes(sha, items)[i]; IsIdentity(sha, items, i, e.guid, e.guidSource)
  {
    var item := items[i];
    DuplicatedIsShared(items, i);
    TrimSpaceTrims(item.guid);
    TrimSpaceTrims(item.enclosureUrl);
    TrimsToNothing(item.enclosureUrl, EnclosureOf(item));
    DecimalIsDecimal(i);
    if AllSpace(item.enclosureUrl) {
      assert DerivedText(item, i) == Decimal(i) + "\0" + item.title + "\0" + item.pubDate;
    }
  }

  lemma DocumentIsParsed(codec: Codec, body: string)
    requires codec.xml(body).Some?
    ensures
      var channel, parsed := codec.xml(body).value, ParseDocument(codec, body).value;
      && IsTrimmed(channel.newFeedUrl, parsed.newFeedUrl)
      && AreEpisodesOf(codec.sha, channel.items, parsed.episodes)
  {
    var items := codec.xml(body).value.items;
    TrimSpaceTrims(codec.xml(body).value.newFeedUrl);
    forall i | 0 <= i < |items|
      ensures
        var e := Episodes(codec.sha, items)[i];
        e.position == i && IsEpisodeOf(items[i], e) && IsIdentity(codec.sha, items, i, e.guid, e.guidSource)
    {
      EpisodeHolds(codec.sha, items[i], i, Duplicated(items));
      EpisodeIsIdentified(codec.sha, items, i);
    }
  }

  /** ParseFeed's item loop. */
  method ParseFeed(codec: Codec, body: string) returns (parsed: Option<ParsedFeed>)
    ensures parsed == ParseDocument(codec, body)
    ensures parsed.Some? <==> codec.xml(body).Some?
    ensures parsed.Some? ==>
              var channel := codec.xml(body).value;
              && IsTrimmed(channel.newFeedUrl, parsed.value.newFeedUrl)
              && AreEpisodesOf(codec.sha, channel.items, parsed.value.episodes)
  {
    var document := codec.xml(body);
    if document == None {
      return None;
    }
    DocumentIsParsed(codec, body);
    var items := document.value.items;
    var episodes: seq<EpisodeUpsert> := [];
    var duplicated := DuplicatedGuids(items);
    for i := 0 to |items|
      invariant episodes == Episodes(codec.sha, items)[..i]
    {
      NextEpisode(codec.sha, items, i);
      episodes := episodes + [ToUpsert(codec.sha, items[i], i, duplicated)];
    }
    assert Episodes(codec.sha, items)[..|items|] == Episodes(codec.sha, items);
    return Some(ParsedFeed(TrimSpace(document.value.newFeedUrl), episodes));
  }

  // ---- When two items share a key ----

  lemma {:induction false} DecimalHasNoNul(n: nat)
    ensures forall k :: 0 <= k < |Decimal(n)| ==> Decimal(n)[k] != '\0'
    ensures |Decimal(n)| > 0
    ensures n >= 10 ==> |Decimal(n)| > 1
  {
    if n >= 10 {
      DecimalHasNoNul(n / 10);
    }
  }

  lemma {:induction false} DecimalInjective(a: nat, b: nat)
    requires Decimal(a) == Decimal(b)
    ensures a == b
  {
    DecimalHasNoNul(a);
    DecimalHasNoNul(b);
    if a >= 10 {
      var m, n := |Decimal(a)| - 1, |Decimal(b)| - 1;
      assert Decimal(a)[m] == Digit(a % 10) && Decimal(b)[n] == Digit(b % 10);
      assert Decimal(a)[..m] == Decimal(a / 10) && Decimal(b)[..n] == Decimal(b / 10);
      DecimalInjective(a / 10, b / 10);
    } else {
      assert Decimal(a)[0] == Decimal(b)[0];
    }
  }

  lemma DerivedTextHasPosition(a: Item, i: nat, b: Item, j: nat)
    requires DerivedText(a, i) == DerivedText(b, j)
    ensures i == j
  {
    var s, t := DerivedText(a, i), DerivedText(b, j);
    var m, n := |Decimal(i)|, |Decimal(j)|;
    DecimalHasNoNul(i);
    DecimalHasNoNul(j);
    assert s[..m] == Decimal(i) && s[m] == '\0';
    assert t[..n] == Decimal(j) && t[n] == '\0';
    assert forall k :: 0 <= k < m ==> s[k] == s[..m][k] != '\0';
    assert forall k :: 0 <= k < n ==> t[k] == t[..n][k] != '\0';
    DecimalInjective(i, j);
  }

  /** The assumptions on a document under which keys are as good as the hash. */
  ghost predicate WellBehaved(sha: string -> string, items: seq<Item>) {
    && Injective(sha)
    && (forall i, text :: 0 <= i < |items| ==> GuidOf(items[i]) != sha(text))
    && (forall i :: 0 <= i < |items| ==> '\0' !in EnclosureOf(items[i]))
  }

  lemma UniqueGuids(items: seq<Item>, i: nat, j: nat)
    requires i < j < |items| && GuidOf(items[i]) == GuidOf(items[j])
    ensures Count(items, GuidOf(items[i])) > 1
  {
    CountSplit(items, j, GuidOf(items[i]));
    CountPositive(items[..j], GuidOf(items[i]));
    assert items[..j][i] == items[i];
  }

  lemma {:induction false} CountSplit(items: seq<Item>, k: nat, guid: string)
    requires k < |items|
    ensures Count(items, guid) >= Count(items[..k], guid) + (if GuidOf(items[k]) == guid then 1 else 0)
  {
    var front := items[..|items| - 1];
    if k < |front| {
      CountSplit(front, k, guid);
      assert front[..k] == items[..k];
    }
  }

  /**
   Two items of one document share a key exactly when both fell back to the same enclosure;
   such a pair is the only one that is stored as one episode.
   */
  lemma KeysCollideOnlyOnEnclosure(sha: string -> string, items: seq<Item>, i: nat, j: nat)
    requires WellBehaved(sha, items)
    requires i < j < |items|
    ensures
      var a, b := Episodes(sha, items)[i], Episodes(sha, items)[j];
      a.guid == b.guid <==>
        a.guidSource == b.guidSource == FromEnclosureHash && a.audioUrl == b.audioUrl
  {
    var a, b := Episodes(sha, items)[i], Episodes(sha, items)[j];
    if a.guid == b.guid {
      if a.guidSource == b.guidSource == FromFeed {
        UniqueGuids(items, i, j);
      } else if a.guidSource == b.guidSource == Derived {
        DerivedTextHasPosition(items[i], i, items[j], j);
      } else if a.guidSource != FromFeed && b.guidSource != FromFeed && a.guidSource != b.guidSource {
        assert DerivedText(items[i], i)[|Decimal(i)|] == '\0';
        assert DerivedText(items[j], j)[|Decimal(j)|] == '\0';
      }
    }
  }

  // ---- Stability under reordering ----

  lemma FrontWithout<T>(s: seq<T>, k: nat)
    requires k < |s| - 1
    ensures
      var n := |s| - 1;
      s[..k] + s[k + 1..] == s[..n][..k] + s[..n][k + 1..] + [s[n]]
  {
  }

  lemma CountMore(items: seq<Item>, item: Item, guid: string)
    ensures Count(items + [item], guid) == Count(items, guid) + (if GuidOf(item) == guid then 1 else 0)
  {
    assert (items + [item])[..|items|] == items;
  }

  lemma {:induction false} CountWithout(items: seq<Item>, k: nat, guid: string)
    requires k < |items|
    ensures Count(items, guid)
            == Count(items[..k] + items[k + 1..], guid) + (if GuidOf(items[k]) == guid then 1 else 0)
  {
    var n := |items| - 1;
    var front := items[..n];
    if k < n {
      var less := front[..k] + front[k + 1..];
      CountWithout(front, k, guid);
      FrontWithout(items, k);
      CountMore(less, items[n], guid);
      assert items[..k] + items[k + 1..] == less + [items[n]];
    } else {
      assert items[..k] + items[k + 1..] == front;
    }
  }

  lemma WithoutLast<T>(s: seq<T>)
    requires s != []
    ensures multiset(s[..|s| - 1]) == multiset(s) - multiset{s[|s| - 1]}
  {
    assert s == s[..|s| - 1] + [s[|s| - 1]];
  }

  lemma WithoutAt<T>(s: seq<T>, k: nat)
    requires k < |s|
    ensures multiset(s[..k] + s[k + 1..]) == multiset(s) - multiset{s[k]}
  {
    assert s == s[..k] + [s[k]] + s[k + 1..];
  }

  lemma {:induction false} CountIgnoresOrder(a: seq<Item>, b: seq<Item>, guid: string)
    requires multiset(a) == multiset(b)
    ensures Count(a, guid) == Count(b, guid)
    decreases |a|
  {
    if a == [] {
      assert |multiset(b)| == 0;
    } else {
      var n := |a| - 1;
      assert a[n] in multiset(b);
      var k :| 0 <= k < |b| && b[k] == a[n];
      CountWithout(b, k, guid);
      var front, rest := a[..n], b[..k] + b[k + 1..];
      assert multiset(front) == multiset(rest) by {
        WithoutLast(a);
        WithoutAt(b, k);
      }
      CountIgnoresOrder(front, rest, guid);
    }
  }

  lemma DuplicatedIgnoresOrder(a: seq<Item>, b: seq<Item>)
    requires multiset(a) == multiset(b)
    ensures Duplicated(a) == Duplicated(b)
  {
    forall g ensures g in Duplicated(a) <==> g in Duplicated(b) {
      CountIgnoresOrder(a, b, g);
      CountPositive(a, g);
      CountPositive(b, g);
    }
  }

  /** No other item of the document has the item's guid. */
  predicate UniqueGuid(items: seq<Item>, i: nat)
    requires i < |items|
  {
    GuidOf(items[i]) != "" && forall k :: 0 <= k < |items| && k != i ==> GuidOf(items[k]) != GuidOf(items[i])
  }

  lemma {:induction false} SharedGuid(items: seq<Item>, i: nat) returns (k: nat)
    requires i < |items| && Count(items, GuidOf(items[i])) > 1
    ensures k < |items| && k != i && GuidOf(items[k]) == GuidOf(items[i])
  {
    var guid, rest := GuidOf(items[i]), items[..i] + items[i + 1..];
    CountWithout(items, i, guid);
    assert Count(rest, guid) > 0;
    CountPositive(rest, guid);
    var j :| 0 <= j < |rest| && GuidOf(rest[j]) == guid;
    k := if j < i then j else j + 1;
    assert items[k] == rest[j];
  }

  /** A guid is duplicated exactly when another item has it. */
  lemma DuplicatedIsShared(items: seq<Item>, i: nat)
    requires i < |items|
    ensures UniqueGuid(items, i) <==> GuidOf(items[i]) != "" && GuidOf(items[i]) !in Duplicated(items)
  {
    if Count(items, GuidOf(items[i])) > 1 {
      var k := SharedGuid(items, i);
    }
    forall k | 0 <= k < |items| && k != i && GuidOf(items[k]) == GuidOf(items[i])
      ensures Count(items, GuidOf(items[i])) > 1
    {
      UniqueGuids(items, if i < k then i else k, if i < k then k else i);
    }
  }

  /**
   Reordering a document leaves the key of an item alone if and only if no other item has its
   guid, or it has an enclosure, or it stays where it was.
   */
  lemma KeySurvivesReordering(sha: string -> string, a: seq<Item>, b: seq<Item>, i: nat, j: nat)
    requires Injective(sha)
    requires multiset(a) == multiset(b)
    requires i < |a| && j < |b| && a[i] == b[j]
    ensures
      Episodes(sha, a)[i].guid == Episodes(sha, b)[j].guid <==>
      UniqueGuid(a, i) || EnclosureOf(a[i]) != "" || i == j
    ensures Episodes(sha, a)[i].guidSource == Episodes(sha, b)[j].guidSource
  {
    DuplicatedIgnoresOrder(a, b);
    DuplicatedIsShared(a, i);
    var before, after := Episodes(sha, a)[i], Episodes(sha, b)[j];
    if before.guid == after.guid && before.guidSource == Derived {
      DerivedTextHasPosition(a[i], i, b[j], j);
    }
  }

  /** Two items without guid and enclosure: swapping them changes both their keys. */
  lemma SwapChangesDerivedKeys(sha: string -> string, x: Item, y: Item)
    requires Injective(sha)
    requires GuidOf(x) == GuidOf(y) == "" && EnclosureOf(x) == EnclosureOf(y) == ""
    ensures Episodes(sha, [x, y])[0].guid != Episodes(sha, [y, x])[1].guid
    ensures Episodes(sha, [x, y])[1].guid != Episodes(sha, [y, x])[0].guid
  {
    assert multiset([x, y]) == multiset([y, x]);
    KeySurvivesReordering(sha, [x, y], [y, x], 0, 1);
    KeySurvivesReordering(sha, [x, y], [y, x], 1, 0);
  }
}
