/** The command-line news generator: filtering the feed entries into news
    items, and the checks and prompt assembly before the script request. The
    feed, the pattern search and the chat completion are inputs. */
module News {
  import opened Wrappers
  import opened Strings
  import opened Seqs

  // ---------------------------------------------------------------------------
  // parse_rss_feed
  // ---------------------------------------------------------------------------

  /** One parsed feed entry: its fields by name. */
  datatype Entry = Entry(fields: map<string, string>)

  /** The feed configuration: the item keys with the feed field each one is
      read from, and the title patterns that drop an entry. */
  datatype Config = Config(fields: map<string, string>, ignorePatterns: seq<string>)

  /** The configuration key that holds the patterns rather than a field. */
  const IgnoreKey: string := "IGNORE_PATTERNS"

  /** `FEED_CONFIG`, the patterns kept as text. */
  const FeedConfig: Config := Config(
    map["TITLE" := "title", "DESCRIPTION" := "description", "CATEGORY" := "category"],
    ["SBS News in Easy English \\d+ \\w+ \\d{4}", "News Bulletin \\d+ \\w+ \\d{4}"])

  /** A news item: each configured key with the entry's field, or `None`. */
  type Item = map<string, Option<string>>

  predicate HasTitle(e: Entry)
  {
    "title" in e.fields
  }

  function Title(e: Entry): string
  {
    if HasTitle(e) then e.fields["title"] else ""
  }

  /** `any(re.search(pattern, entry.title) for pattern in ...)`, with
      `search(pattern, text)` standing for `re.search`. */
  predicate Ignored(config: Config, search: (string, string) -> bool, e: Entry)
  {
    exists k :: 0 <= k < |config.ignorePatterns| && search(config.ignorePatterns[k], Title(e))
  }

  /** The item built from a kept entry. */
  function ItemOf(config: Config, e: Entry): Item
  {
    map key | key in config.fields && key != IgnoreKey ::
      if config.fields[key] in e.fields then Some(e.fields[config.fields[key]]) else None
  }

  /** The parse of a feed, entry by entry: the loop fails with
      `AttributeError` on the first entry without a title, when there is a
      pattern to test it against. */
  function ParsedItems(entries: seq<Entry>, config: Config, search: (string, string) -> bool): Result<seq<Item>, string>
    decreases |entries|
  {
    if entries == [] then Success([])
    else
      match ParsedItems(entries[..|entries| - 1], config, search)
      case Failure(error) => Failure(error)
      case Success(items) =>
        var e := entries[|entries| - 1];
        if |config.ignorePatterns| > 0 && !HasTitle(e) then Failure("AttributeError")
        else if Ignored(config, search, e) then Success(items)
        else Success(items + [ItemOf(config, e)])
  }

  /** `parse_rss_feed` over the entries the feed parser returned. */
  method ParseRssFeed(entries: seq<Entry>, config: Config, search: (string, string) -> bool)
    returns (result: Result<seq<Item>, string>)
    ensures result == ParsedItems(entries, config, search)
  {
    var parsedItems: seq<Item> := [];
    for i := 0 to |entries|
      invariant ParsedItems(entries[..i], config, search) == Success(parsedItems)
    {
      var entry := entries[i];
      assert entries[..i + 1][..i] == entries[..i];
      if |config.ignorePatterns| > 0 && "title" !in entry.fields {
        FailurePersists(entries, i + 1, config, search);
        assert entries[..i + 1] == entries[..i] + [entry];
        return Failure("AttributeError");
      }
      if Ignored(config, search, entry) {
        continue;
      }
      parsedItems := parsedItems + [ItemOf(config, entry)];
    }
    assert entries[..|entries|] == entries;
    return Success(parsedItems);
  }

  /** Once a prefix of the feed fails, the whole feed fails the same way. */
  lemma {:induction false} FailurePersists(entries: seq<Entry>, i: nat, config: Config, search: (string, string) -> bool)
    requires i <= |entries| && ParsedItems(entries[..i], config, search).Failure?
    ensures ParsedItems(entries, config, search) == ParsedItems(entries[..i], config, search)
    decreases |entries| - i
  {
    if i < |entries| {
      assert entries[..i + 1][..i] == entries[..i];
      FailurePersists(entries, i + 1, config, search);
    } else {
      assert entries[..i] == entries;
    }
  }

  /** Whether an entry survives the patterns. */
  function Keep(config: Config, search: (string, string) -> bool): Entry -> bool
  {
    e => !Ignored(config, search, e)
  }

  function ItemsOf(config: Config, entries: seq<Entry>): (r: seq<Item>)
    ensures |r| == |entries|
  {
    seq(|entries|, k requires 0 <= k < |entries| => ItemOf(config, entries[k]))
  }

  /** One more entry that the patterns can examine extends the parse by its item,
      unless a pattern drops it. */
  lemma ParsedItemsSnoc(init: seq<Entry>, e: Entry, config: Config, search: (string, string) -> bool)
    requires config.ignorePatterns == [] || HasTitle(e)
    ensures ParsedItems(init + [e], config, search)
            == match ParsedItems(init, config, search)
               case Failure(error) => Failure(error)
               case Success(items) => Success(items + if Ignored(config, search, e) then [] else [ItemOf(config, e)])
  {
    var entries := init + [e];
    assert entries[..|entries| - 1] == init;
    assert entries[|entries| - 1] == e;
    if ParsedItems(init, config, search).Success? {
      var items := ParsedItems(init, config, search).value;
      assert items + [] == items;
    }
  }

  /** When the patterns can examine every entry, the items are exactly those of the
      entries no pattern matches, in feed order. */
  lemma {:induction false} ParsedItemsAreKeptEntries(entries: seq<Entry>, config: Config, search: (string, string) -> bool)
    requires config.ignorePatterns == [] || forall k :: 0 <= k < |entries| ==> HasTitle(entries[k])
    ensures ParsedItems(entries, config, search) == Success(ItemsOf(config, Filter(entries, Keep(config, search))))
    decreases |entries|
  {
    if entries != [] {
      var init, e := entries[..|entries| - 1], entries[|entries| - 1];
      ParsedItemsAreKeptEntries(init, config, search);
      assert entries == init + [e];
      ParsedItemsSnoc(init, e, config, search);
      var keep := Keep(config, search);
      FilterSnoc(init, e, keep);
      var kept := Filter(init, keep);
      assert keep(e) == !Ignored(config, search, e);
      if keep(e) {
        ItemsOfSnoc(config, kept, e);
      } else {
        assert kept + [] == kept;
        assert ItemsOf(config, kept) + [] == ItemsOf(config, kept);
      }
    }
  }

  lemma ItemsOfSnoc(config: Config, entries: seq<Entry>, e: Entry)
    ensures ItemsOf(config, entries + [e]) == ItemsOf(config, entries) + [ItemOf(config, e)]
  {
    assert forall k :: 0 <= k < |entries| ==> (entries + [e])[k] == entries[k];
  }

  /** When some entry has no title and there are patterns, the parse fails. */
  lemma MissingTitleFails(entries: seq<Entry>, i: nat, config: Config, search: (string, string) -> bool)
    requires i < |entries| && !HasTitle(entries[i]) && config.ignorePatterns != []
    ensures ParsedItems(entries, config, search).Failure?
  {
    var prefix := entries[..i + 1];
    assert prefix[..i] == entries[..i];
    assert prefix[|prefix| - 1] == entries[i];
    FailurePersists(entries, i + 1, config, search);
  }

  /** Every item has exactly the configured keys other than the patterns
      key, each holding the entry's field when the entry has it and `None`
      otherwise. */
  lemma ItemOfSpec(config: Config, e: Entry, key: string)
    ensures key in ItemOf(config, e) <==> key in config.fields && key != IgnoreKey
    ensures key in ItemOf(config, e) ==>
              (ItemOf(config, e)[key].Some? <==> config.fields[key] in e.fields)
              && (ItemOf(config, e)[key].Some? ==> ItemOf(config, e)[key].value == e.fields[config.fields[key]])
  {
  }

  /** With the shipped configuration each item has a title, a description and
      a category entry. */
  lemma FeedConfigItemKeys(e: Entry)
    ensures ItemOf(FeedConfig, e).Keys == {"TITLE", "DESCRIPTION", "CATEGORY"}
  {
    var keys := ItemOf(FeedConfig, e).Keys;
    assert "IGNORE_PATTERNS" != "TITLE" && "IGNORE_PATTERNS" != "DESCRIPTION" && "IGNORE_PATTERNS" != "CATEGORY";
    forall key | key in keys ensures key in {"TITLE", "DESCRIPTION", "CATEGORY"} {
      ItemOfSpec(FeedConfig, e, key);
    }
    forall key | key in {"TITLE", "DESCRIPTION", "CATEGORY"} ensures key in keys {
      ItemOfSpec(FeedConfig, e, key);
    }
  }

  // ---------------------------------------------------------------------------
  // generate_news_script
  // ---------------------------------------------------------------------------

  /** The token budget of the request. */
  const MaxTokens: nat := 4095

  /** The two chat messages and the completion budget sent for a script. */
  datatype ScriptRequest = ScriptRequest(systemContent: string, userContent: string, maxTokens: int)

  /** An f-string of an optional item field: `None` prints as `None`. */
  function FieldText(v: Option<string>): string
  {
    match v
    case None => "None"
    case Some(s) => s
  }

  /** `f"{item['TITLE']}\n{item['DESCRIPTION']}"`; a missing key raises
      `KeyError`. */
  function ItemText(item: Item): Option<string>
  {
    if "TITLE" in item && "DESCRIPTION" in item then
      Some(FieldText(item["TITLE"]) + "\n" + FieldText(item["DESCRIPTION"]))
    else None
  }

  /** The texts of all items, or `None` when any item lacks a key. */
  function ItemTexts(items: seq<Item>): (r: Option<seq<string>>)
    ensures r.Some? <==> forall k :: 0 <= k < |items| ==> "TITLE" in items[k] && "DESCRIPTION" in items[k]
    ensures r.Some? ==> |r.value| == |items|
    ensures r.Some? ==> forall k :: 0 <= k < |items| ==>
              r.value[k] == FieldText(items[k]["TITLE"]) + "\n" + FieldText(items[k]["DESCRIPTION"])
  {
    if items == [] then Some([])
    else match (ItemText(items[0]), ItemTexts(items[1..]))
      case (Some(t), Some(ts)) => Some([t] + ts)
      case _ => None
  }

  function StationIdent(stationName: string, readerName: string): string
  {
    "Station Name is \"" + stationName + "\"\nNews reader name is \"" + readerName + "\""
  }

  function TimeIdent(currentTime: string): string
  {
    "Current date and time is \"" + currentTime + "\"\n"
  }

  /** The user message: the instructions, the time, the station and the
      news, separated as the script generator separates them. */
  function FullPrompt(instructions: string, stationName: string, readerName: string,
                      currentTime: string, newsContent: string): string
  {
    instructions + "\n\n" + TimeIdent(currentTime) + StationIdent(stationName, readerName) + "\n\n" + newsContent
  }

  /** The checks and the request of `generate_news_script`, in the order the
      generator makes them. */
  function BuildRequest(items: seq<Item>, instructions: string, stationName: string, readerName: string,
                        currentTime: string): Result<ScriptRequest, string>
  {
    if items == [] then Failure("ValueError: the list of news items is empty")
    else match ItemTexts(items)
      case None => Failure("KeyError")
      case Some(texts) =>
        var newsContent := Join(texts, "\n\n");
        var promptLength := WordCount(instructions);
        var newsLength := WordCount(newsContent);
        if promptLength + newsLength > MaxTokens then Failure("ValueError: the prompt exceeds the token limit")
        else Success(ScriptRequest(instructions,
                                   FullPrompt(instructions, stationName, readerName, currentTime, newsContent),
                                   MaxTokens - promptLength))
  }

  /** `generate_news_script`: `complete` is the chat completion call; its
      failure is re-raised with a prefix. */
  function GenerateNewsScript(items: seq<Item>, instructions: string, stationName: string, readerName: string,
                              currentTime: string, complete: ScriptRequest -> Result<string, string>): Result<string, string>
  {
    match BuildRequest(items, instructions, stationName, readerName, currentTime)
    case Failure(error) => Failure(error)
    case Success(request) =>
      match complete(request)
      case Success(script) => Success(script)
      case Failure(error) => Failure("An error occurred with the OpenAI API: " + error)
  }

  // ---------------------------------------------------------------------------
  // Properties of the script request
  // ---------------------------------------------------------------------------

  /** The sum of the word counts of `texts`. */
  function SumWords(texts: seq<string>): nat
  {
    if texts == [] then 0 else WordCount(texts[0]) + SumWords(texts[1..])
  }

  /** The number of words in the title and the description of each item. */
  function ItemWords(items: seq<Item>): nat
  {
    if items == [] then 0
    else
      var item := items[0];
      var here := if "TITLE" in item && "DESCRIPTION" in item
                  then WordCount(FieldText(item["TITLE"])) + WordCount(FieldText(item["DESCRIPTION"])) else 0;
      here + ItemWords(items[1..])
  }

  lemma WhitespaceHasNoWords()
    ensures WordCount("\n") == 0 && WordCount("\n\n") == 0
  {
    assert "\n\n"[..1] == "\n";
  }

  /** Joining at blank lines adds no words. */
  lemma {:induction false} JoinedWords(texts: seq<string>)
    ensures WordCount(Join(texts, "\n\n")) == SumWords(texts)
    decreases |texts|
  {
    if |texts| == 1 {
      assert SumWords(texts[1..]) == 0;
    } else if |texts| > 1 {
      var rest := Join(texts[1..], "\n\n");
      JoinedWords(texts[1..]);
      WhitespaceHasNoWords();
      WordCountConcat("\n\n", rest);
      WordCountConcat(texts[0], "\n\n" + rest);
      assert texts[0] + "\n\n" + rest == texts[0] + ("\n\n" + rest);
    }
  }

  /** The word counts of the item texts are those of their titles and
      descriptions. */
  lemma {:induction false} ItemTextWords(items: seq<Item>)
    requires ItemTexts(items).Some?
    ensures SumWords(ItemTexts(items).value) == ItemWords(items)
    decreases |items|
  {
    if items != [] {
      ItemTextWords(items[1..]);
      var item := items[0];
      var title, description := FieldText(item["TITLE"]), FieldText(item["DESCRIPTION"]);
      WhitespaceHasNoWords();
      WordCountConcat(title, "\n");
      WordCountConcat(title + "\n", description);
      assert ItemTexts(items).value[1..] == ItemTexts(items[1..]).value;
    }
  }

  /** The request is sent exactly when there are items, each with a title
      and a description, and the instructions and the titles and
      descriptions hold at most 4095 words together. */
  lemma {:induction false} RequestAcceptedExactly(items: seq<Item>, instructions: string, stationName: string,
                                                  readerName: string, currentTime: string)
    ensures BuildRequest(items, instructions, stationName, readerName, currentTime).Success?
            <==> items != [] && ItemTexts(items).Some? && WordCount(instructions) + ItemWords(items) <= MaxTokens
    ensures items == [] ==> BuildRequest(items, instructions, stationName, readerName, currentTime)
                            == Failure("ValueError: the list of news items is empty")
  {
    if items != [] && ItemTexts(items).Some? {
      JoinedWords(ItemTexts(items).value);
      ItemTextWords(items);
    }
  }

  /** An accepted request carries the instructions as the system message
      and a user message that starts with them and ends with the news. */
  lemma AcceptedRequestMessages(items: seq<Item>, instructions: string, stationName: string,
                                readerName: string, currentTime: string)
    requires BuildRequest(items, instructions, stationName, readerName, currentTime).Success?
    ensures var r := BuildRequest(items, instructions, stationName, readerName, currentTime).value;
            var news := Join(ItemTexts(items).value, "\n\n");
            && r.systemContent == instructions
            && r.userContent == instructions + "\n\n" + "Current date and time is \"" + currentTime + "\"\n"
                                + "Station Name is \"" + stationName + "\"\nNews reader name is \"" + readerName + "\""
                                + "\n\n" + news
            && StartsWith(r.userContent, instructions + "\n\n")
            && |news| <= |r.userContent| && r.userContent[|r.userContent| - |news|..] == news
  {
    var news := Join(ItemTexts(items).value, "\n\n");
    var r := BuildRequest(items, instructions, stationName, readerName, currentTime).value;
    assert r.systemContent == instructions && r.userContent == FullPrompt(instructions, stationName, readerName, currentTime, news);
    FullPromptText(instructions, stationName, readerName, currentTime, news);
    FullPromptEnds(instructions, stationName, readerName, currentTime, news);
  }

  /** The user message, written out. */
  lemma FullPromptText(instructions: string, stationName: string, readerName: string,
                       currentTime: string, news: string)
    ensures FullPrompt(instructions, stationName, readerName, currentTime, news)
            == instructions + "\n\n" + "Current date and time is \"" + currentTime + "\"\n"
               + "Station Name is \"" + stationName + "\"\nNews reader name is \"" + readerName + "\""
               + "\n\n" + news
  {
  }

  /** The user message starts with the instructions and a blank line and
      ends with the news. */
  lemma FullPromptEnds(instructions: string, stationName: string, readerName: string,
                       currentTime: string, news: string)
    ensures var p := FullPrompt(instructions, stationName, readerName, currentTime, news);
            && StartsWith(p, instructions + "\n\n")
            && |news| <= |p| && p[|p| - |news|..] == news
  {
    var middle := TimeIdent(currentTime) + StationIdent(stationName, readerName) + "\n\n";
    assert FullPrompt(instructions, stationName, readerName, currentTime, news)
           == (instructions + "\n\n") + middle + news;
    ConcatEnds(instructions + "\n\n", middle, news);
  }

  lemma ConcatEnds(a: string, m: string, b: string)
    ensures StartsWith(a + m + b, a)
    ensures |b| <= |a + m + b| && (a + m + b)[|a + m + b| - |b|..] == b
  {
    assert (a + m + b)[..|a|] == a;
  }

  /** The completion budget of an accepted request is 4095 minus the
      instruction words, which is never below the number of news words. */
  lemma AcceptedRequestBudget(items: seq<Item>, instructions: string, stationName: string,
                              readerName: string, currentTime: string)
    requires BuildRequest(items, instructions, stationName, readerName, currentTime).Success?
    ensures var r := BuildRequest(items, instructions, stationName, readerName, currentTime).value;
            && r.maxTokens == MaxTokens - WordCount(instructions)
            && r.maxTokens >= ItemWords(items)
  {
    JoinedWords(ItemTexts(items).value);
    ItemTextWords(items);
  }

  /** A rejected request never reaches the chat call: the outcome does not
      depend on it. */
  lemma RejectedNeverCalls(items: seq<Item>, instructions: string, stationName: string, readerName: string,
                           currentTime: string, c1: ScriptRequest -> Result<string, string>,
                           c2: ScriptRequest -> Result<string, string>)
    requires BuildRequest(items, instructions, stationName, readerName, currentTime).Failure?
    ensures GenerateNewsScript(items, instructions, stationName, readerName, currentTime, c1)
            == GenerateNewsScript(items, instructions, stationName, readerName, currentTime, c2)
            == Failure(BuildRequest(items, instructions, stationName, readerName, currentTime).error)
  {
  }

  /** An accepted request returns the script or the prefixed API error. */
  lemma AcceptedReturnsCompletion(items: seq<Item>, instructions: string, stationName: string, readerName: string,
                                  currentTime: string, complete: ScriptRequest -> Result<string, string>)
    requires BuildRequest(items, instructions, stationName, readerName, currentTime).Success?
    ensures var r := complete(BuildRequest(items, instructions, stationName, readerName, currentTime).value);
            var g := GenerateNewsScript(items, instructions, stationName, readerName, currentTime, complete);
            && (r.Success? ==> g == r)
            && (r.Failure? ==> g == Failure("An error occurred with the OpenAI API: " + r.error))
  {
  }
}
