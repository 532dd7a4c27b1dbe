# Twitter data source of cognicity-reports, modelled in Dafny

This project models the core of the Twitter data source of the CogniCity
flood-report system (`TwitterDataSource.js`):

- **Configuration lists.** The constructor splits the comma-separated
  `track` and `users` settings into the keyword and username lists.
- **Tweet routing** (`filter`). Nested loops over the keywords and the usernames.
  They decide whether a tweet needs no action, is *unconfirmed* or is *confirmed*:
  - An unconfirmed tweet goes through the new-user check. When the user is new,
    the bot greets them ("ahoy") and records them as an invitee.
  - A confirmed tweet goes to `parseRequest`. Its first `banjir|flood` match
    picks one of three outcomes: a greeting, a request for a report-card link,
    or nothing.
- **Reply composition.** This covers the dialogue lookup with fallback to the
  default language, the language read from the tweet, the card-link message
  built from the card service's answer, and `botTweet`, which replies only
  when there was no error.
- **The stream watchdog** of `start`. This is the shared `time` cell. The data
  handler stamps it, and the once-a-second poll `forceStreamAlive` checks it and
  resets it. The poll reconnects a stream that has been silent for longer than
  `twitter.timeout`.

Files:

- `wrappers.dfy`: `Option` / `Result`.
- `strings.dfy`: case-insensitive literal matching, which stands in for
  `new RegExp(p, "gi")`, and JavaScript `split` / `join` on one separator.
- `dialogue.dfy`: the dialogue table, `_getDialogue` and `_parseLangsFromTweet`.
- `datasource.dfy`: the constructor, the routing loop, `parseRequest`,
  `sendAhoy`, `botTweet`, the message branch of `_getCardLink`, and `filter`.
  The collaborators are not run here. `Filter` returns the calls it makes on
  them, in order, as `Effect` values:
  - `_baseSendReplyTweet`;
  - `_baseInsertInvitee`;
  - the card-service POST;
  - `_ifNewUser`, with the calls its callback makes.
- `watchdog.dfy`: a `Watchdog` class with the `time` field and the methods
  `OnData` and `Poll`. The clock is passed in as `now`. Pure step functions
  over event traces carry the "reconnects exactly once" lemmas.

Things taken as inputs:

- The clock.
- The card service's answer (a transport error, or a status code with a
  `cardId`).
- The `CARD_PATH` environment value (`Config.cardPath`).

The new-user check of the base object is a recorded effect, `WhenNewUser`,
that holds the calls its callback makes.

Facts about the code that the model keeps:

- The data source has no retweet verification and no geo or city
  classification, although the sample configuration documents those settings
  (sample-twitter-config.js:16-18, 42-45). Confirmed tweets go to
  `parseRequest` and unconfirmed ones to `sendAhoy`. No report is ever inserted.
- Nothing guards against overlapping reconnects. `time` is reset only by the
  poll that reconnects, not when a connection opens.
- With an empty username list, the inner loop never decides and the outer loop
  goes on to later keywords. The result is no action. After construction this
  cannot happen, because a split always gives at least one piece.
- In `sendAhoy` the invitee is recorded right after `_ahoy` hands over the
  greeting (TwitterDataSource.js:201-202). Nothing checks that the reply was
  delivered, so the invitee is recorded whether or not the reply succeeds.
- A stream message without `text` (a stall warning, a limit notice) is handed
  to `filter`, which fails at `tweet.text.match` (TwitterDataSource.js:216).
  The data handler therefore never reaches its update of `time`
  (TwitterDataSource.js:98-99), and such a message does not re-arm the watchdog.

## Model

| member | source | states |
|---|---|---|
| Strings.ContainsCI | TwitterDataSource.js:215-222 | the truthiness of `tweet.text.match(re)` for a literal pattern: a case-insensitive prefix always matches, an empty pattern matches every text, and a match needs a pattern no longer than the text |
| Strings.ContainsCIIff | TwitterDataSource.js:215-216 | the left-to-right scan used for `text.match(new RegExp(p, "gi"))` finds a match exactly when the pattern occurs, ignoring case, at some offset of the text |
| Strings.Split | TwitterDataSource.js:59-60 | `split(',')` always gives at least one piece, and no piece contains the separator |
| Strings.JoinSplit | TwitterDataSource.js:59-60 | joining the pieces of a split with the separator gives back the original string |
| Strings.SplitJoin | TwitterDataSource.js:59-60 | splitting a join of separator-free pieces gives back those pieces (so the split is the only such decomposition) |
| TwitterDataSource.Create | TwitterDataSource.js:59-60 | after construction, the keyword and username lists are non-empty, hold no comma, and join with ',' back to `track` and `users` |
| TwitterDataSource.CreateUnique | TwitterDataSource.js:59-60 | any list of comma-free pieces that joins to `track` is exactly the keyword list |
| TwitterDataSource.SampleLists | sample-twitter-config.js:39-40 | the sample `track = 'flood,banjir'` and `users = '@petajkt'` give the lists `["flood", "banjir"]` and `["@petajkt"]` |
| TwitterDataSource.RouteTweet | TwitterDataSource.js:213-238 | no action exactly when no keyword matches (or there are no usernames); confirmed exactly when some keyword and some username match; unconfirmed exactly when a keyword matches, usernames exist, and every username from index 0 to n-1 fails; the deciding keyword is the first matching one, and the deciding username is the first matching one |
| TwitterDataSource.RequestMatchAt | TwitterDataSource.js:173 | a `banjir\|flood` match at an offset is the tweet's own text at that offset, and it equals one of the two words when case is ignored; there is no match exactly when neither word occurs at that offset |
| TwitterDataSource.RequestKeyword | TwitterDataSource.js:173-176 | the first element of `words.match(/banjir\|flood/gi)` is a piece of the tweet (`OccursAt` some offset) that equals `banjir` or `flood` up to case |
| TwitterDataSource.RequestKeywordLeftmost | TwitterDataSource.js:173-176 | the first element of the match is the leftmost occurrence of `banjir` or `flood`, in the tweet's casing; there is none exactly when no offset holds one |
| TwitterDataSource.Classify | TwitterDataSource.js:178-193 | the `switch` greets exactly when nothing matched, and asks for a card link exactly when the match is lower-case `banjir` or `flood` |
| TwitterDataSource.ClassifyByCase | TwitterDataSource.js:173-193 | the match is always `banjir` or `flood` up to case; it is dropped (no case taken) exactly when its casing is not all lower-case |
| TwitterDataSource.CapitalisedFloodIsDropped | TwitterDataSource.js:173-193 | a tweet starting with `Flood` matches but reaches no `case` |
| TwitterDataSource.AhoyText | TwitterDataSource.js:303-306 | the greeting is one of the two ahoy texts; it is defined whenever the default language is `en` or `id`; an `id` tweet gets the Indonesian text and an `en` tweet the English one; a tweet with no language or another language gets the default language's text, `undefined` when the default is neither `en` nor `id` |
| TwitterDataSource.CardLinkMessage | TwitterDataSource.js:324-335 | success exactly when there is no error and the status is 200; the message is then the card dialogue + ' ' + CARD_PATH + cardId + '/report'; otherwise an error carrying no text |
| TwitterDataSource.CardLinkEndsWithReportPath | TwitterDataSource.js:328-329 | a successful card message ends with the card id followed by `/report` |
| TwitterDataSource.BotTweet | TwitterDataSource.js:161-168 | no reply exactly when the callback got an error; otherwise one reply to the tweet's author and id with the message |
| TwitterDataSource.ParseRequest | TwitterDataSource.js:170-194 | nothing happens exactly when the match reaches no case; with no match, one ahoy reply in the tweet's language; for a card request, the card POST (user, network, language), followed, exactly when the card service answered 200, by a reply carrying the card-link message; only replies and card requests are made, and every reply goes to the tweet's author |
| TwitterDataSource.SendAhoy | TwitterDataSource.js:196-205 | a single new-user check on the author, whose callback sends the ahoy reply and then records the author as an invitee |
| TwitterDataSource.Filter | TwitterDataSource.js:158-239 | no calls at all when no keyword matches; `parseRequest`'s calls when a keyword and a username match; `sendAhoy`'s calls when a keyword matches and no username does; every reply goes to the tweet's author |
| TwitterDataSource.ConfirmedNeverInvites | TwitterDataSource.js:170-205 | a confirmed tweet never records an invitee and never goes through the new-user check |
| Dialogue.ParseLangs | TwitterDataSource.js:281-288 | `[lang]` when the tweet's `lang` is present and truthy (non-empty), `[]` otherwise, so the list has at most one element |
| Dialogue.First | TwitterDataSource.js:174 | `langs[0]` is the first code, and `undefined` for an empty list |
| Dialogue.TweetLanguage | TwitterDataSource.js:198 | the reply language is defined exactly when the tweet has a non-empty `lang`, and it is that code |
| Dialogue.GetDialogue | TwitterDataSource.js:295-301 | the entry for the language when the table has one; otherwise (including an absent language) the entry for the default language, which is `undefined` when that entry is missing too |
| Dialogue.FallbackIsDefault | TwitterDataSource.js:297-300 | on a miss, the lookup answers exactly as a request in the default language does |
| Dialogue.TotalWithKnownDefault | TwitterDataSource.js:295-301 | when the default language is in the table, every lookup yields one of the table's own texts |
| Dialogue.AhoyFrenchFallsBack | TwitterDataSource.js:22-26 | a French tweet with English as the default gets the English ahoy text |
| StreamWatchdog.UnsetNeverReconnects | TwitterDataSource.js:130-131 | while `time` is unset (0), polls never reconnect and never change it, for any run without new tweets |
| StreamWatchdog.SilentReconnectsOnce | TwitterDataSource.js:130-139 | with `time` set and no new tweet, the run reconnects exactly once if some poll sees more than `timeout` elapsed, and otherwise never; afterwards `time` is unset |
| StreamWatchdog.SilentAtMostOnce | TwitterDataSource.js:130-139 | any run without new tweets reconnects at most once |
| StreamWatchdog.DataRearms | TwitterDataSource.js:95-100 | a tweet sets `time` to its own arrival time, whatever came before; a disconnect notice or a message without text leaves the state as it was |
| StreamWatchdog.Watchdog.constructor | TwitterDataSource.js:128 | `time` starts unset |
| StreamWatchdog.Watchdog.OnData | TwitterDataSource.js:90-101 | the message is handed to `filter` exactly when it is not a disconnect notice; `time := now` only for a tweet, which `filter` returns from; a disconnect notice or a message without text leaves `time` unchanged |
| StreamWatchdog.Watchdog.Poll | TwitterDataSource.js:130-137 | reconnect exactly when `time` is set and `now - time > timeout`, unsetting `time`; otherwise nothing changes |
| StreamWatchdog.PollTwice | TwitterDataSource.js:130-139 | of two polls on an expired stream with no data between them, the first reconnects and the second does not |

## Left out

- StreamWatchdog.Watchdog.OnData: for a message without `text`, the model
  records only that `time` is left alone. The exception that `filter` raises
  then leaves the data handler, and what the stream library or the process
  does with it is not modelled.
- The Twitter stream transport, the event wiring (`error`, `end` and `destroy`
  handlers), `setTimeout` scheduling and the logger. These are I/O and event
  plumbing. `OnData` and `Poll` take the place of the handlers, and the clock
  is a parameter.
- The check made when the stream callback fires (TwitterDataSource.js:113-122).
  It runs once per connection, not once per message. It compares against
  `twitter.stream.timeout`, but `stream` is the boolean `true`, so the
  comparison is with `undefined` and never holds. It would also call an
  undefined `self.connectStream`. So it never acts, and it is not modelled.
- StreamWatchdog.Watchdog.Poll: a reconnect means `connectStream()` is called. That call opens
  a new subscription only when `twitter.stream === true`, and it does not close
  the old one. Neither the subscription nor the old stream is modelled.
- The HTTP POST to the card service and its `process.env` settings (host, API
  key). This is a foreign call, so its answer is an input, `CardResponse`.
- CardLinkMessage: the error text (`'Error getting card: '` with the JSON of the
  error and the response) is reduced to a `CardError` tag. The text is only
  logged.
- `_twitterDateToIso8601`: a thin wrapper over the `moment` date library.
- The base object's `_ifNewUser`, `_baseInsertInvitee` and `_baseSendReplyTweet`.
  Their code is not part of this model. They are recorded as `Effect` values
  with the fields they receive. Whether `_ifNewUser` runs its callback is not
  modelled.
- Retweet verification, city and location matching, report inserts and the
  reply blacklist. The sample configuration documents these settings, but the
  data source never reads them.
- Full regular-expression semantics. Keyword and username patterns are treated
  as literal text matched with ASCII case folding. Regex metacharacters in a
  configured pattern are not interpreted. Case folding between non-ASCII
  characters is not modelled. (A non-unicode JavaScript regex never folds a
  non-ASCII character onto an ASCII one.)
- Dialogue.GetDialogue: JavaScript's `language in dialogue` also sees inherited
  property names (such as `toString`) and treats an undefined language as the
  key `"undefined"`. The model looks up only the table's own keys, and an absent
  language always misses.
- Concurrency: the source is single-threaded and event-driven. Each `OnData`
  and `Poll` call is one atomic event.
