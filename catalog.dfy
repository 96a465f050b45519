/** The remote catalog client's pure parts: the request each call issues (method and
    URL, built from the API base address), and the shape of an enriched page, where each
    character gets the episodes resolved from its episode locators, in order.

    The network itself is not modelled: the page response and the episode lookup are
    inputs (`fetch` maps an episode locator to the episode, or to None when that request
    fails). Each URL builder is paired with a parser and a round-trip lemma, which is how
    the model states that a URL carries its page, name or id verbatim and unambiguously.
    That is relative to the model's parser, which takes everything after `&name=` as the
    name: the name is not encoded, so a server reading the query would cut it at `&` or
    `#` and decode `%` and `+`. */
module Catalog {
  import opened CharacterModel

  /** The arguments of one list call, `getCharacters(page, name)`. */
  datatype PageRequest = PageRequest(page: nat, name: string)

  datatype HttpMethod = GET | POST | PUT | DELETE

  datatype HttpRequest = HttpRequest(verb: HttpMethod, url: string)

  // ---------------------------------------------------------------------------
  // Decimal text of numbers, as a template literal renders an integer

  predicate IsDigit(ch: char) { '0' <= ch <= '9' }

  predicate AllDigits(s: string) { forall i :: 0 <= i < |s| ==> IsDigit(s[i]) }

  function DigitChar(d: nat): (ch: char)
    requires d < 10
    ensures IsDigit(ch) && ch as int - '0' as int == d
  {
    ('0' as int + d) as char
  }

  /** Plain decimal digits of `n`, without leading zeros. */
  function Decimal(n: nat): (s: string)
    ensures |s| >= 1 && AllDigits(s)
    ensures s[0] == '0' ==> n == 0
  {
    if n < 10 then [DigitChar(n)]
    else
      var s := Decimal(n / 10) + [DigitChar(n % 10)];
      assert s[0] == Decimal(n / 10)[0];
      s
  }

  /** The number a string of digits denotes. */
  function DigitsValue(s: string): nat
    requires AllDigits(s)
  {
    if |s| == 0 then 0
    else DigitsValue(s[..|s| - 1]) * 10 + (s[|s| - 1] as int - '0' as int)
  }

  lemma {:induction false} DecimalRoundTrip(n: nat)
    ensures DigitsValue(Decimal(n)) == n
  {
    if n >= 10 {
      var s := Decimal(n);
      assert s[..|s| - 1] == Decimal(n / 10);
      DecimalRoundTrip(n / 10);
    }
  }

  /** An integer as text: a minus sign before a negative one. */
  function IntText(i: int): (s: string)
    ensures |s| >= 1
    ensures i < 0 <==> s[0] == '-'
  {
    if i < 0 then "-" + Decimal(-i) else Decimal(i)
  }

  /** The length of the run of digits that `s` starts with. */
  function DigitRun(s: string): (k: nat)
    ensures k <= |s| && AllDigits(s[..k])
    ensures k < |s| ==> !IsDigit(s[k])
  {
    if |s| == 0 || !IsDigit(s[0]) then 0
    else
      var k := 1 + DigitRun(s[1..]);
      assert s[..k] == [s[0]] + s[1..][..k - 1];
      k
  }

  lemma {:induction false} DigitRunOfDecimal(d: string, t: string)
    requires AllDigits(d)
    requires t == [] || !IsDigit(t[0])
    ensures DigitRun(d + t) == |d|
  {
    if |d| > 0 {
      assert (d + t)[1..] == d[1..] + t;
      DigitRunOfDecimal(d[1..], t);
    } else {
      assert d + t == t;
    }
  }

  // ---------------------------------------------------------------------------
  // Request URLs

  /** The characters collection, `{base}character`. */
  function CharactersUrl(base: string): string
  {
    base + "character"
  }

  /** `getCharacters(page, name)`: the page number in decimal, then the name verbatim
      (no encoding) only when it is not empty. */
  function ListUrl(base: string, page: nat, name: string): string
  {
    CharactersUrl(base) + "/?page=" + Decimal(page) + (if name != "" then "&name=" + name else "")
  }

  /** One character, `{base}character/{id}`. */
  function ItemUrl(base: string, id: int): string
  {
    CharactersUrl(base) + "/" + IntText(id)
  }

  /** Reads page and name back out of a list URL for `base`. */
  function ParseListUrl(base: string, url: string): Option<PageRequest>
  {
    var prefix := CharactersUrl(base) + "/?page=";
    if |url| < |prefix| || url[..|prefix|] != prefix then None
    else
      var rest := url[|prefix|..];
      var k := DigitRun(rest);
      var tail := rest[k..];
      if k == 0 then None
      else if tail == [] then Some(PageRequest(DigitsValue(rest[..k]), ""))
      else if |tail| > 6 && tail[..6] == "&name=" then Some(PageRequest(DigitsValue(rest[..k]), tail[6..]))
      else None
  }

  /** Reads the id back out of an item URL for `base`. */
  function ParseItemUrl(base: string, url: string): Option<int>
  {
    var prefix := CharactersUrl(base) + "/";
    if |url| < |prefix| || url[..|prefix|] != prefix then None
    else
      var rest := url[|prefix|..];
      if |rest| > 1 && rest[0] == '-' && AllDigits(rest[1..]) then
        var magnitude: int := DigitsValue(rest[1..]);
        Some(-magnitude)
      else if |rest| > 0 && AllDigits(rest) then Some(DigitsValue(rest))
      else None
  }

  /** A list URL gives back exactly the page and the name it was built from. */
  lemma ListUrlRoundTrip(base: string, page: nat, name: string)
    ensures ParseListUrl(base, ListUrl(base, page, name)) == Some(PageRequest(page, name))
  {
    var prefix := CharactersUrl(base) + "/?page=";
    var rest := Decimal(page) + (if name != "" then "&name=" + name else "");
    var url := ListUrl(base, page, name);
    assert url == prefix + rest;
    assert url[..|prefix|] == prefix && url[|prefix|..] == rest;
    ListQueryRoundTrip(page, name);
  }

  /** The query text after `?page=`: a digit run that reads back as the page, then
      nothing or `&name=` and the name. */
  lemma ListQueryRoundTrip(page: nat, name: string)
    ensures var d := Decimal(page);
            var suffix := if name != "" then "&name=" + name else "";
            var rest := d + suffix;
            && DigitRun(rest) == |d| > 0
            && rest[..|d|] == d && DigitsValue(d) == page
            && rest[|d|..] == suffix
            && (name != "" ==> |suffix| > 6 && suffix[..6] == "&name=" && suffix[6..] == name)
  {
    var d := Decimal(page);
    var suffix := if name != "" then "&name=" + name else "";
    DigitRunOfDecimal(d, suffix);
    DecimalRoundTrip(page);
    assert (d + suffix)[..|d|] == d;
    assert (d + suffix)[|d|..] == suffix;
    if name != "" {
      assert suffix[..6] == "&name=";
      assert suffix[6..] == name;
    }
  }

  /** An item URL gives back exactly the id it was built from. */
  lemma ItemUrlRoundTrip(base: string, id: int)
    ensures ParseItemUrl(base, ItemUrl(base, id)) == Some(id)
  {
    var prefix := CharactersUrl(base) + "/";
    var text := IntText(id);
    var url := ItemUrl(base, id);
    assert url == prefix + text;
    assert url[..|prefix|] == prefix && url[|prefix|..] == text;
    IntTextRoundTrip(id);
  }

  /** The text of an integer is a sign and digits, or digits alone, reading back as it. */
  lemma IntTextRoundTrip(id: int)
    ensures id < 0 ==> |IntText(id)| > 1 && IntText(id)[0] == '-' && AllDigits(IntText(id)[1..])
    ensures id < 0 ==> DigitsValue(IntText(id)[1..]) == -id
    ensures id >= 0 ==> IntText(id)[0] != '-' && AllDigits(IntText(id)) && DigitsValue(IntText(id)) == id
  {
    var text := IntText(id);
    if id < 0 {
      var digits := Decimal(-id);
      assert text[1..] == digits;
      DecimalRoundTrip(-id);
    } else {
      DecimalRoundTrip(id);
    }
  }

  /** Distinct list calls go to distinct URLs. */
  lemma ListUrlInjective(base: string, p1: nat, n1: string, p2: nat, n2: string)
    requires ListUrl(base, p1, n1) == ListUrl(base, p2, n2)
    ensures p1 == p2 && n1 == n2
  {
    ListUrlRoundTrip(base, p1, n1);
    ListUrlRoundTrip(base, p2, n2);
  }

  // ---------------------------------------------------------------------------
  // The requests of the five service calls

  /** `getCharacters`: a GET of the list URL. */
  function GetCharactersRequest(base: string, r: PageRequest): (q: HttpRequest)
    ensures q.verb == GET && q.url == ListUrl(base, r.page, r.name)
    ensures ParseListUrl(base, q.url) == Some(r)
  {
    ListUrlRoundTrip(base, r.page, r.name);
    HttpRequest(GET, ListUrl(base, r.page, r.name))
  }

  /** `getCharacter(id)`: a GET of the item URL. */
  function GetCharacterRequest(base: string, id: int): (q: HttpRequest)
    ensures q.verb == GET && q.url == ItemUrl(base, id)
    ensures ParseItemUrl(base, q.url) == Some(id)
  {
    ItemUrlRoundTrip(base, id);
    HttpRequest(GET, ItemUrl(base, id))
  }

  /** `createCharacter`: a POST to the collection itself, which is neither an item
      URL nor a list URL. */
  function CreateCharacterRequest(base: string): (q: HttpRequest)
    ensures q.verb == POST && q.url == base + "character"
    ensures ParseItemUrl(base, q.url) == None && ParseListUrl(base, q.url) == None
  {
    HttpRequest(POST, CharactersUrl(base))
  }

  /** `updateCharacter(id, …)`: a PUT of the item URL. */
  function UpdateCharacterRequest(base: string, id: int): (q: HttpRequest)
    ensures q.verb == PUT && ParseItemUrl(base, q.url) == Some(id)
    ensures q.url == GetCharacterRequest(base, id).url
  {
    ItemUrlRoundTrip(base, id);
    HttpRequest(PUT, ItemUrl(base, id))
  }

  /** `deleteCharacter(id)`: a DELETE of the item URL. */
  function DeleteCharacterRequest(base: string, id: int): (q: HttpRequest)
    ensures q.verb == DELETE && ParseItemUrl(base, q.url) == Some(id)
    ensures q.url == GetCharacterRequest(base, id).url
  {
    ItemUrlRoundTrip(base, id);
    HttpRequest(DELETE, ItemUrl(base, id))
  }

  // ---------------------------------------------------------------------------
  // Page enrichment

  /** Every episode locator of `c` resolves. */
  predicate Resolves(c: CharacterData, fetch: string -> Option<Episode>)
  {
    forall j :: 0 <= j < |c.episode| ==> fetch(c.episode[j]).Some?
  }

  /** `c` is `d` with, at each position, the episode fetched from `d`'s locator there. */
  predicate EnrichedFrom(c: Character, d: CharacterData, fetch: string -> Option<Episode>)
  {
    c.data == d &&
    |c.episodesData| == |d.episode| &&
    forall j :: 0 <= j < |d.episode| ==> fetch(d.episode[j]) == Some(c.episodesData[j])
  }

  /** The join over one character's episode requests: all of them, in locator order,
      or None when any of them fails. */
  function FetchEpisodes(locators: seq<string>, fetch: string -> Option<Episode>): (r: Option<seq<Episode>>)
    ensures r.Some? <==> forall j :: 0 <= j < |locators| ==> fetch(locators[j]).Some?
    ensures r.Some? ==> |r.value| == |locators|
    ensures r.Some? ==> forall j :: 0 <= j < |locators| ==> fetch(locators[j]) == Some(r.value[j])
  {
    if |locators| == 0 then Some([])
    else
      match fetch(locators[0])
      case None => None
      case Some(e) =>
        match FetchEpisodes(locators[1..], fetch)
        case None =>
          var j :| 0 <= j < |locators[1..]| && fetch(locators[1..][j]).None?;
          assert locators[1..][j] == locators[j + 1];
          None
        case Some(es) =>
          assert forall j :: 1 <= j < |locators| ==> locators[j] == locators[1..][j - 1];
          Some([e] + es)
  }

  /** `{ ...character, episodesData }` once every episode of the character arrived. */
  function WithEpisodes(c: CharacterData, fetch: string -> Option<Episode>): (r: Option<Character>)
    ensures r.Some? <==> Resolves(c, fetch)
    ensures r.Some? ==> EnrichedFrom(r.value, c, fetch)
  {
    match FetchEpisodes(c.episode, fetch)
    case None => None
    case Some(es) => Some(Character(c, es))
  }

  /** The join over all characters of a page, in result order. */
  function EnrichResults(cs: seq<CharacterData>, fetch: string -> Option<Episode>): (r: Option<seq<Character>>)
    ensures r.Some? <==> forall i :: 0 <= i < |cs| ==> Resolves(cs[i], fetch)
    ensures r.Some? ==> |r.value| == |cs|
    ensures r.Some? ==> forall i :: 0 <= i < |cs| ==> EnrichedFrom(r.value[i], cs[i], fetch)
  {
    if |cs| == 0 then Some([])
    else
      match WithEpisodes(cs[0], fetch)
      case None => None
      case Some(c) =>
        match EnrichResults(cs[1..], fetch)
        case None =>
          assert exists i :: 0 <= i < |cs[1..]| && !Resolves(cs[1..][i], fetch);
          None
        case Some(rest) =>
          assert forall i :: 1 <= i < |cs| ==> cs[i] == cs[1..][i - 1];
          Some([c] + rest)
  }

  /** The enriched page: `info` untouched, results enriched one for one. */
  function EnrichPage(page: Page<CharacterData>, fetch: string -> Option<Episode>): (r: Option<Page<Character>>)
    ensures r.Some? <==> forall i :: 0 <= i < |page.results| ==> Resolves(page.results[i], fetch)
    ensures r.Some? ==> r.value.info == page.info && |r.value.results| == |page.results|
    ensures r.Some? ==> forall i :: 0 <= i < |page.results| ==> EnrichedFrom(r.value.results[i], page.results[i], fetch)
  {
    match EnrichResults(page.results, fetch)
    case None => None
    case Some(rs) => Some(Page(page.info, rs))
  }

  /** How a list call ends for its subscriber: one enriched page, an error, or
      completion without any value. */
  datatype FetchOutcome = Emitted(page: Page<Character>) | Failed | NoValue

  /** Whether the joins produce a value at all: a join over nothing completes without
      emitting, so an empty page, or any character with no episode locators, ends the
      call before any episode response arrives. */
  predicate JoinEmits(page: Page<CharacterData>)
  {
    |page.results| > 0 &&
    forall i :: 0 <= i < |page.results| ==> |page.results[i].episode| > 0
  }

  /** The whole `getCharacters` pipeline, given the list response (None when that
      request fails) and the episode lookup. */
  function GetCharacters(response: Option<Page<CharacterData>>, fetch: string -> Option<Episode>): (r: FetchOutcome)
    ensures response.None? ==> r == Failed
    ensures r.NoValue? <==> response.Some? && !JoinEmits(response.value)
    ensures r.Failed? && response.Some? ==>
      exists i :: 0 <= i < |response.value.results| && !Resolves(response.value.results[i], fetch)
    ensures r.Emitted? ==>
      && response.Some?
      && r.page.info == response.value.info
      && |r.page.results| == |response.value.results|
      && forall i :: 0 <= i < |response.value.results| ==> EnrichedFrom(r.page.results[i], response.value.results[i], fetch)
  {
    match response
    case None => Failed
    case Some(page) =>
      if !JoinEmits(page) then NoValue
      else
        match EnrichPage(page, fetch)
        case None => Failed
        case Some(p) => Emitted(p)
  }
}
