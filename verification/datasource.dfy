/**
 * The Twitter data source: its keyword and username lists, the routing of an
 * incoming tweet, and the replies the bot composes. The collaborators the data
 * source hands its work to (reply sending, invitee recording, the new-user
 * check, the card service) are not run here; `Filter` returns the calls it
 * makes on them, in order, as `Effect` values.
 */
module TwitterDataSource {
  import opened Wrappers
  import opened Strings
  import Dialogue

  /** The fields of a tweet the data source reads. `lang` is absent when the
      stream does not detect a language. */
  datatype Tweet = Tweet(screenName: string, idStr: string, text: string, lang: Option<string>)

  /** The configuration values the data source reads: `twitter.track`,
      `twitter.users`, `twitter.defaultLanguage`, `cognicity.network` and the
      card link prefix taken from the environment (`CARD_PATH`). */
  datatype Config = Config(track: string, users: string, defaultLanguage: string,
                           network: string, cardPath: string)

  /** A configured data source. */
  datatype Source = Source(config: Config, keywords: seq<string>, usernames: seq<string>)

  /** A call the data source makes on one of its collaborators. */
  datatype Effect =
    | SendReply(screenName: string, inReplyTo: string, message: Option<string>)
      // `_baseSendReplyTweet`; a message of `None` is JavaScript's `undefined`
    | InsertInvitee(screenName: string)
      // `_baseInsertInvitee`
    | RequestCard(username: string, network: string, language: Option<string>)
      // the POST to the card service
    | WhenNewUser(screenName: string, callback: seq<Effect>)
      // `_ifNewUser`, with the calls its callback makes

  /** What the card service answered: a transport error, or a response with
      its status code and the `cardId` of its body. */
  datatype CardResponse = RequestError | Response(statusCode: int, cardId: string)

  /** Why no card link could be made. */
  datatype CardError = CardRequestFailed | CardBadStatus(statusCode: int)

  /** The routing decision `filter` takes: which keyword (and username)
      index decided it. */
  datatype Route = NoAction | Confirmed(keyword: nat, username: nat) | Unconfirmed(keyword: nat)

  /** What the bot does with a confirmed tweet, decided by the first
      `banjir|flood` occurrence. */
  datatype Request = Greet | CardLink | Unrecognised

  const Separator := ','

  /** The constructor: the keyword and username lists are the comma-separated
      pieces of `track` and `users`. */
  function Create(config: Config): (src: Source)
    ensures src.config == config
    ensures |src.keywords| >= 1 && |src.usernames| >= 1
    ensures Join(src.keywords, Separator) == config.track
    ensures Join(src.usernames, Separator) == config.users
    ensures forall k :: 0 <= k < |src.keywords| ==> Separator !in src.keywords[k]
    ensures forall k :: 0 <= k < |src.usernames| ==> Separator !in src.usernames[k]
  {
    JoinSplit(config.track, Separator);
    JoinSplit(config.users, Separator);
    Source(config, Split(config.track, Separator), Split(config.users, Separator))
  }

  /** The lists are exactly the pieces: any separator-free pieces that join
      to `track` are the keyword list. */
  lemma CreateUnique(config: Config, parts: seq<string>)
    requires |parts| >= 1 && Join(parts, Separator) == config.track
    requires forall k :: 0 <= k < |parts| ==> Separator !in parts[k]
    ensures Create(config).keywords == parts
  {
    SplitJoin(parts, Separator);
  }

  /** The sample configuration: `track = 'flood,banjir'`, `users = '@petajkt'`. */
  lemma SampleLists(config: Config)
    requires config.track == "flood,banjir" && config.users == "@petajkt"
    ensures Create(config).keywords == ["flood", "banjir"]
    ensures Create(config).usernames == ["@petajkt"]
  {
    assert Join(["flood", "banjir"], Separator) == "flood,banjir" by {
      assert ["flood", "banjir"][1..] == ["banjir"];
    }
    SplitJoin(["flood", "banjir"], Separator);
    SplitJoin(["@petajkt"], Separator);
  }

  /** No pattern of the list occurs in `text`. */
  predicate NoneMatch(text: string, patterns: seq<string>)
  {
    forall k :: 0 <= k < |patterns| ==> !ContainsCI(text, patterns[k])
  }

  /** `patterns[k]` is the first pattern of the list that occurs in `text`. */
  predicate FirstMatch(text: string, patterns: seq<string>, k: int)
  {
    0 <= k < |patterns| && ContainsCI(text, patterns[k]) &&
    forall i :: 0 <= i < k ==> !ContainsCI(text, patterns[i])
  }

  /** The nested keyword and username scan of `filter`. The first keyword
      that occurs decides: if a username occurs too, the tweet is confirmed;
      if the last username is reached without one, it is unconfirmed. With no
      usernames at all the inner scan never decides and nothing happens. */
  method RouteTweet(text: string, keywords: seq<string>, usernames: seq<string>) returns (r: Route)
    ensures r.NoAction? <==> NoneMatch(text, keywords) || |usernames| == 0
    ensures r.Confirmed? <==> !NoneMatch(text, keywords) && !NoneMatch(text, usernames)
    ensures r.Unconfirmed? <==> !NoneMatch(text, keywords) && |usernames| > 0 && NoneMatch(text, usernames)
    ensures r.Confirmed? ==> FirstMatch(text, keywords, r.keyword) && FirstMatch(text, usernames, r.username)
    ensures r.Unconfirmed? ==> FirstMatch(text, keywords, r.keyword)
  {
    var i := 0;
    while i < |keywords|
      invariant 0 <= i <= |keywords|
      invariant |usernames| > 0 ==> forall k :: 0 <= k < i ==> !ContainsCI(text, keywords[k])
    {
      if ContainsCI(text, keywords[i]) {
        var j := 0;
        while j < |usernames|
          invariant 0 <= j <= |usernames|
          invariant |usernames| > 0 ==> j < |usernames|
          invariant forall k :: 0 <= k < j ==> !ContainsCI(text, usernames[k])
        {
          if ContainsCI(text, usernames[j]) {
            r := Confirmed(i, j);
            return;
          } else if j == |usernames| - 1 {
            r := Unconfirmed(i);
            return;
          }
          j := j + 1;
        }
      }
      i := i + 1;
    }
    r := NoAction;
  }

  /** The `/banjir|flood/gi` match at offset `p`, with the tweet's own casing. */
  function RequestMatchAt(text: string, p: int): (m: Option<string>)
    ensures m.Some? ==> (MatchAt(text, "banjir", p) || MatchAt(text, "flood", p))
    ensures m.Some? ==> 0 <= p && p + |m.value| <= |text| && m.value == text[p..p + |m.value|]
    ensures m.None? <==> !MatchAt(text, "banjir", p) && !MatchAt(text, "flood", p)
  {
    if MatchAt(text, "banjir", p) then Some(text[p..p + 6])
    else if MatchAt(text, "flood", p) then Some(text[p..p + 5])
    else None
  }

  /** `w` is the piece of `text` that starts at offset `p`. */
  predicate OccursAt(text: string, w: string, p: int)
  {
    0 <= p && p + |w| <= |text| && text[p..p + |w|] == w
  }

  /** A piece of the tail is a piece of the whole text, one offset later. */
  lemma OccursInTail(text: string, w: string)
    requires |text| > 0
    ensures (exists p :: OccursAt(text[1..], w, p)) ==> exists p :: OccursAt(text, w, p)
  {
    if exists p :: OccursAt(text[1..], w, p) {
      var p :| OccursAt(text[1..], w, p);
      assert text[1..][p..p + |w|] == text[p + 1..p + 1 + |w|];
      assert OccursAt(text, w, p + 1);
    }
  }

  /** The first element of `text.match(/banjir|flood/gi)`, or `null`: a
      piece of the tweet that is `banjir` or `flood` up to case. */
  function RequestKeyword(text: string): (m: Option<string>)
    ensures m.Some? ==> LowerS(m.value) == "banjir" || LowerS(m.value) == "flood"
    ensures m.Some? ==> |m.value| <= |text|
    ensures m.Some? ==> exists p :: OccursAt(text, m.value, p)
    decreases |text|
  {
    if RequestMatchAt(text, 0).Some? then
      assert OccursAt(text, RequestMatchAt(text, 0).value, 0);
      RequestMatchAt(text, 0)
    else if |text| == 0 then None
    else
      var m := RequestKeyword(text[1..]);
      if m.Some? then OccursInTail(text, m.value); m else m
  }

  lemma RequestMatchAtShift(text: string, p: int)
    requires |text| > 0 && 0 <= p
    ensures RequestMatchAt(text, p + 1) == RequestMatchAt(text[1..], p)
  {
    MatchAtShift(text, "banjir", p);
    MatchAtShift(text, "flood", p);
    if p + 1 + 6 <= |text| {
      assert text[1..][p..p + 6] == text[p + 1..p + 1 + 6];
    }
    if p + 1 + 5 <= |text| {
      assert text[1..][p..p + 5] == text[p + 1..p + 1 + 5];
    }
  }

  /** The match is the leftmost occurrence of `banjir` or `flood`, taken as
      it is written in the tweet; there is none exactly when no offset holds
      one. */
  lemma {:induction false} RequestKeywordLeftmost(text: string)
    ensures RequestKeyword(text).None? <==> forall p :: 0 <= p <= |text| ==> RequestMatchAt(text, p).None?
    ensures RequestKeyword(text).Some? ==>
              exists p :: 0 <= p <= |text| && RequestMatchAt(text, p) == RequestKeyword(text) &&
                          forall q :: 0 <= q < p ==> RequestMatchAt(text, q).None?
    decreases |text|
  {
    if RequestMatchAt(text, 0).Some? {
    } else if |text| == 0 {
    } else {
      RequestKeywordLeftmost(text[1..]);
      forall p | 0 <= p < |text| ensures RequestMatchAt(text, p + 1) == RequestMatchAt(text[1..], p) {
        RequestMatchAtShift(text, p);
      }
      if RequestKeyword(text[1..]).Some? {
        var p :| 0 <= p <= |text[1..]| && RequestMatchAt(text[1..], p) == RequestKeyword(text[1..]) &&
                 forall q :: 0 <= q < p ==> RequestMatchAt(text[1..], q).None?;
        assert RequestMatchAt(text, p + 1) == RequestKeyword(text);
        forall q | 0 <= q < p + 1 ensures RequestMatchAt(text, q).None? {
          if q > 0 {
            assert RequestMatchAt(text, q) == RequestMatchAt(text[1..], q - 1);
          }
        }
      } else {
        forall p | 0 <= p <= |text| ensures RequestMatchAt(text, p).None? {
          if p > 0 {
            assert RequestMatchAt(text, p) == RequestMatchAt(text[1..], p - 1);
          }
        }
      }
    }
  }

  /** The `switch` of `parseRequest`: no match greets, an exactly lower-case
      `banjir` or `flood` asks for a card link, and any other casing of them
      matches no case. */
  function Classify(m: Option<string>): (req: Request)
    ensures req == Greet <==> m.None?
    ensures req == CardLink <==> m == Some("banjir") || m == Some("flood")
  {
    match m
    case None => Greet
    case Some(w) => if w == "banjir" || w == "flood" then CardLink else Unrecognised
  }

  /** Only the two lower-case spellings are recognised: a match in any other
      casing is dropped. */
  lemma ClassifyByCase(text: string)
    ensures RequestKeyword(text).Some? ==> LowerS(RequestKeyword(text).value) in {"banjir", "flood"}
    ensures Classify(RequestKeyword(text)) == Unrecognised <==>
              RequestKeyword(text).Some? && RequestKeyword(text).value != LowerS(RequestKeyword(text).value)
  {
  }

  /** `Flood` at the start of a tweet is found but matches no case. */
  lemma CapitalisedFloodIsDropped()
    ensures Classify(RequestKeyword("Flood @petajkt")) == Unrecognised
  {
    var t := "Flood @petajkt";
    assert !MatchAt(t, "banjir", 0) by {
      assert LowerS(t[0..6])[0] == 'f';
    }
    assert MatchAt(t, "flood", 0) by {
      assert LowerS(t[0..5]) == "flood";
    }
    assert t[0..5] == "Flood";
    assert RequestMatchAt(t, 0) == Some("Flood");
  }

  /** JavaScript's string conversion of a possibly undefined text. */
  function JsString(s: Option<string>): (t: string)
    ensures s.Some? ==> t == s.value
    ensures s.None? ==> t == "undefined"
  {
    match s
    case Some(v) => v
    case None => "undefined"
  }

  /** `_ahoy`: the greeting in the tweet's language, never an error. It is
      one of the two ahoy texts, it is defined whenever the default language is
      one the table knows, and an `id` tweet gets the Indonesian text. A tweet
      with no language, or one the table does not know, gets the default
      language's greeting, which is `undefined` for a default other than `en`
      or `id`. */
  function AhoyText(language: Option<string>, defaultLanguage: string): (text: Option<string>)
    ensures text.Some? ==> text.value == Dialogue.AhoyEn || text.value == Dialogue.AhoyId
    ensures defaultLanguage == "en" || defaultLanguage == "id" ==> text.Some?
    ensures language == Some("id") ==> text == Some(Dialogue.AhoyId)
    ensures language == Some("en") ==> text == Some(Dialogue.AhoyEn)
    ensures language.None? || language.value !in Dialogue.Ahoy ==>
              text == (if defaultLanguage == "en" then Some(Dialogue.AhoyEn)
                       else if defaultLanguage == "id" then Some(Dialogue.AhoyId)
                       else None)
  {
    Dialogue.GetDialogue(Dialogue.Ahoy, language, defaultLanguage)
  }

  /** The success or error branch of `_getCardLink`: with no error and
      status 200 the card text, a space and the link
      `CARD_PATH + cardId + '/report'`; otherwise an error and no text. */
  function CardLinkMessage(response: CardResponse, language: Option<string>, config: Config): (r: Result<Option<string>, CardError>)
    ensures r.Success? <==> response.Response? && response.statusCode == 200
    ensures r.Success? ==>
              r.value == Some(JsString(Dialogue.GetDialogue(Dialogue.Card, language, config.defaultLanguage))
                              + " " + config.cardPath + response.cardId + "/report")
    ensures response.RequestError? ==> r == Failure(CardRequestFailed)
    ensures response.Response? && response.statusCode != 200 ==> r == Failure(CardBadStatus(response.statusCode))
  {
    match response
    case RequestError => Failure(CardRequestFailed)
    case Response(status, cardId) =>
      if status == 200 then
        Success(Some(JsString(Dialogue.GetDialogue(Dialogue.Card, language, config.defaultLanguage))
                     + " " + config.cardPath + cardId + "/report"))
      else Failure(CardBadStatus(status))
  }

  /** The card link message ends with the card's own report path. */
  lemma CardLinkEndsWithReportPath(response: CardResponse, language: Option<string>, config: Config)
    requires response.Response? && response.statusCode == 200
    ensures var m := CardLinkMessage(response, language, config).value.value;
            |m| >= |response.cardId| + 7 &&
            m[|m| - |response.cardId| - 7..] == response.cardId + "/report"
  {
    var prefix := JsString(Dialogue.GetDialogue(Dialogue.Card, language, config.defaultLanguage)) + " " + config.cardPath;
    var suffix := response.cardId + "/report";
    var m := CardLinkMessage(response, language, config).value.value;
    assert m == prefix + suffix;
    assert m[|prefix|..] == suffix;
  }

  /** `botTweet`: reply to the tweet with the message, unless there was an
      error, in which case nothing is sent. */
  function BotTweet(tweet: Tweet, outcome: Result<Option<string>, CardError>): (effects: seq<Effect>)
    ensures outcome.Failure? <==> effects == []
    ensures outcome.Success? ==> effects == [SendReply(tweet.screenName, tweet.idStr, outcome.value)]
  {
    match outcome
    case Failure(_) => []
    case Success(message) => [SendReply(tweet.screenName, tweet.idStr, message)]
  }

  /** Every reply goes to the tweet's author, in reply to that tweet. */
  predicate RepliesToAuthor(tweet: Tweet, effects: seq<Effect>)
  {
    forall k :: 0 <= k < |effects| && effects[k].SendReply? ==>
      effects[k].screenName == tweet.screenName && effects[k].inReplyTo == tweet.idStr
  }

  /** `parseRequest`: the reply to a confirmed tweet. */
  function ParseRequest(src: Source, tweet: Tweet, response: CardResponse): (effects: seq<Effect>)
    ensures effects == [] <==> Classify(RequestKeyword(tweet.text)) == Unrecognised
    ensures Classify(RequestKeyword(tweet.text)) == Greet ==>
              effects == [SendReply(tweet.screenName, tweet.idStr,
                                    AhoyText(Dialogue.TweetLanguage(tweet.lang), src.config.defaultLanguage))]
    ensures Classify(RequestKeyword(tweet.text)) == CardLink ==>
              1 <= |effects| <= 2 &&
              effects[0] == RequestCard(tweet.screenName, src.config.network, Dialogue.TweetLanguage(tweet.lang)) &&
              (|effects| == 2 <==> response.Response? && response.statusCode == 200) &&
              (|effects| == 2 ==>
                 effects[1] == SendReply(tweet.screenName, tweet.idStr,
                                         CardLinkMessage(response, Dialogue.TweetLanguage(tweet.lang), src.config).value))
    ensures forall k :: 0 <= k < |effects| ==> effects[k].SendReply? || effects[k].RequestCard?
    ensures RepliesToAuthor(tweet, effects)
  {
    var language := Dialogue.TweetLanguage(tweet.lang);
    match Classify(RequestKeyword(tweet.text))
    case Greet =>
      BotTweet(tweet, Success(AhoyText(language, src.config.defaultLanguage)))
    case CardLink =>
      [RequestCard(tweet.screenName, src.config.network, language)]
        + BotTweet(tweet, CardLinkMessage(response, language, src.config))
    case Unrecognised => []
  }

  /** `sendAhoy`: for a new user, greet them and record them as invited. */
  function SendAhoy(src: Source, tweet: Tweet): (effects: seq<Effect>)
    ensures |effects| == 1 && effects[0].WhenNewUser? && effects[0].screenName == tweet.screenName
    ensures effects[0].callback ==
              [SendReply(tweet.screenName, tweet.idStr,
                         AhoyText(Dialogue.TweetLanguage(tweet.lang), src.config.defaultLanguage)),
               InsertInvitee(tweet.screenName)]
  {
    var language := Dialogue.TweetLanguage(tweet.lang);
    [WhenNewUser(tweet.screenName,
                 BotTweet(tweet, Success(AhoyText(language, src.config.defaultLanguage)))
                   + [InsertInvitee(tweet.screenName)])]
  }

  /** `filter`: route the tweet and make the calls the route asks for. A
      tweet that matches no keyword causes no call at all; an invitee is
      recorded only on the unconfirmed route. */
  method Filter(src: Source, tweet: Tweet, response: CardResponse) returns (effects: seq<Effect>)
    ensures NoneMatch(tweet.text, src.keywords) || |src.usernames| == 0 ==> effects == []
    ensures !NoneMatch(tweet.text, src.keywords) && !NoneMatch(tweet.text, src.usernames) ==>
              effects == ParseRequest(src, tweet, response)
    ensures !NoneMatch(tweet.text, src.keywords) && |src.usernames| > 0 && NoneMatch(tweet.text, src.usernames) ==>
              effects == SendAhoy(src, tweet)
    ensures RepliesToAuthor(tweet, effects)
  {
    var route := RouteTweet(tweet.text, src.keywords, src.usernames);
    match route
    case NoAction => effects := [];
    case Confirmed(_, _) => effects := ParseRequest(src, tweet, response);
    case Unconfirmed(_) => effects := SendAhoy(src, tweet);
  }

  /** A confirmed tweet never records an invitee and never waits on the
      new-user check. */
  lemma ConfirmedNeverInvites(src: Source, tweet: Tweet, response: CardResponse)
    ensures forall k :: 0 <= k < |ParseRequest(src, tweet, response)| ==>
              !ParseRequest(src, tweet, response)[k].InsertInvitee? &&
              !ParseRequest(src, tweet, response)[k].WhenNewUser?
  {
  }
}
