# Popple karma ledger and command router, in Dafny

Popple is a Discord "karma" bot: people write `alice++` or `bob--` in a guild
(server) channel, and the bot keeps one karma counter per guild and name. This
project models the core of the bot's legacy command handlers (`command.go`)
and the command router whose behaviour `mux_test.go` fixes:

- **Router** (`router.dfy`): `Route(prefix, text)` turns the text of a chat
  message into one of five command kinds (`Announce`, `Karma`, `Leaderboard`,
  `Loserboard`, `BumpKarma`) and the body left after the keyword.
- **Subjects** (`subjects.dfy`): `marshalSubjects` folds the parsed subjects
  of a message into one net delta per name, and merges `@alice` with `alice`.
- **Args** (`args.dfy`): the announce setting read by `SetAnnounce`, and the
  row limit read by `board`. The limit rule uses the first field of
  `strings.Fields` and `strconv.Atoi`, modelled with Go's 64-bit range.
- **Ledger** (`ledger.dfy`): the store is a class with two maps. `entries`
  maps (guild, name) to karma, and `config` maps a guild to its `NoAnnounce`
  flag. Its methods are `ModKarma`, `CheckKarma`, `SetAnnounce`, `Board`,
  `Top` and `Bot`. Discord sends become returned values: a karma reply or
  silence, a reaction or the usage reply, the listed rows.
- **Text** (`text.dfy`): `strings.HasPrefix` and `unicode.IsSpace`.

The ledger keeps one invariant: no row holds karma 0. A net delta of 0 writes
nothing. A row that reaches exactly 0 is deleted. A name without a row has
karma 0. `ModKarma` always updates the ledger. It sends a reply only when some
name changed and the guild's `NoAnnounce` is false.

`mux.go` is not part of this model. The tests fix only the kind of each
route and the body " on" of the one announce case. The rest of `Route` is a
design choice of this model:

- text without the prefix goes to `BumpKarma`, and the whole text is the body;
- otherwise the prefix is removed, then at most one space;
- a leading `announce`, `karma`, `top` or `bot` picks the route, and the body
  is what follows the keyword, its leading space kept;
- any other prefixed text goes to `BumpKarma`, and the body is the text after
  the prefix.

The legacy handlers differ in places from the asynchronous path in
`cmd/popplebot/main.go`. `SetAnnounce` tests prefixes case-sensitively on the
untrimmed text, and `board` falls back to 10 on a bad limit instead of
reporting it. The model follows `command.go`.

## Model

| member | source | states |
|---|---|---|
| `Router.Route` | mux_test.go:7-45 | unprefixed text routes to BumpKarma with the whole text as body; a prefixed text with no keyword routes to BumpKarma with the prefix-stripped text; every body is a suffix of the text |
| `Router.Dispatch` | mux_test.go:8-39 | the route is a keyword's kind exactly when one of announce, karma, top, bot starts the command, and then the body is what follows that keyword; otherwise the route is BumpKarma with the prefix-stripped text |
| `Router.RouteKeyword` | mux_test.go:8-39 | round trip: prefix, optional single space, keyword and any body route back to that keyword's kind with exactly that body |
| `Router.RouteDecomposes` | mux_test.go:8-15 | conversely, a keyword route only comes from prefix + optional space + keyword + body |
| `Router.PrefixIsStripped` | mux_test.go:8-15 | with prefix "@colt", "@colt announce on" routes to Announce with body " on" |
| `Router.AnnounceRoute` | mux_test.go:17-21 | "bull announce" with prefix "bull" routes to Announce |
| `Router.KarmaRoute` | mux_test.go:23-27 | "goat karma" with prefix "goat" routes to Karma |
| `Router.LeaderboardRoute` | mux_test.go:29-33 | "hare top" with prefix "hare" routes to Leaderboard |
| `Router.LoserboardRoute` | mux_test.go:35-39 | "mule bot" with prefix "mule" routes to Loserboard |
| `Router.DefaultRouteIsBumpKarma` | mux_test.go:41-45 | "wolf seal oxen" with prefix "newt" routes to BumpKarma with the whole text as body |
| `Args.AnnounceSetting` | command.go:51-62 | on exactly when the text starts with "on" or "yes"; off exactly when it starts with neither of those but with "off" or "no"; otherwise unrecognised |
| `Args.AnnounceWords` | command.go:51-56 | any text starting with "on" or "yes" turns announcements on, and any starting with "off" or "no" turns them off, whatever follows |
| `Args.AnnounceRecognised` | command.go:51-62 | a text is recognised exactly when it starts with one of the four words; otherwise it is the usage case |
| `Args.AnnounceSettingCases` | command.go:51-62 | "onion" is on and "nope" is off; " on", "ON" and "" are not recognised (case-sensitive, untrimmed) |
| `Args.FirstField` | command.go:155-156 | there is no first field exactly when the text is empty or all whitespace; otherwise the field is a nonempty word without whitespace that stands in the text after only whitespace and before whitespace or the end |
| `Args.FirstFieldOf` | command.go:155-156 | any nonempty word without whitespace, after only whitespace and before whitespace or the end, is the first field |
| `Args.Atoi` | command.go:157 | an accepted text is an optional sign followed by one or more decimal digits, and its value lies in Go's 64-bit int range |
| `Args.AtoiCases` | command.go:157 | "+5" reads as 5 and "007" as 7; "+", "5x" and "abc" are rejected |
| `Args.AtoiDecimal` | command.go:157 | round trip: Atoi reads back the decimal spelling of every in-range number, signed or not |
| `Args.FirstFieldDecimal` | command.go:154-156 | the first field of a text made of whitespace, a run of digits, then nothing or whitespace and anything, is that run of digits |
| `Args.AtoiTooLarge` | command.go:157 | Atoi rejects the decimal spelling of every number beyond the 64-bit range |
| `Args.ParseLimit` | command.go:152-161 | the limit is always positive; it differs from 10 only when the first field parses to it; whenever the first field parses to a positive number, that number is the limit |
| `Args.ParseLimitDecimal` | command.go:154-160 | a positive in-range decimal first field, with any surrounding whitespace and trailing text, is the limit |
| `Args.AtoiNegative` | command.go:157-158 | Atoi never reads a minus-signed decimal as a positive number |
| `Args.ParseLimitNegative` | command.go:157-158 | a negative first field gives the default 10 |
| `Args.ParseLimitZero` | command.go:157-158 | a zero first field gives the default 10 |
| `Args.ParseLimitOutOfRange` | command.go:157-158 | a first field beyond the 64-bit range fails Atoi and gives the default 10 |
| `Args.ParseLimitEmpty` | command.go:152-156 | an empty text gives the default 10 |
| `Args.ParseLimitThree` | command.go:156-160 | "3" gives limit 3 |
| `Args.ParseLimitWithTail` | command.go:155-160 | " 25 rows" gives limit 25 |
| `Args.ParseLimitMinusOne` | command.go:157-160 | "-1" gives the default 10 |
| `Subjects.ResolveName` | command.go:180-184 | the name changes exactly when it is longer than one character and starts with '@', and then it loses only that first character |
| `Subjects.ResolveNameDropsOneMention` | command.go:180-184 | the ledger name is the name itself or the name without one leading '@', and it differs from the name exactly when the name is longer than one character and starts with '@' |
| `Subjects.MentionMerges` | command.go:180-184 | "@alice" and "alice" resolve to the same name; a lone "@" stays "@"; only one '@' is dropped |
| `Subjects.MarshalSubjects` | command.go:177-191 | the keys are exactly the resolved names of the subjects, and each value is the sum of the karma of every subject resolving to it |
| `Subjects.SumForPermutation` | command.go:179-188 | a name's total does not depend on the order of the subjects |
| `Subjects.NetDeltasPermutation` | command.go:177-190 | permuting the subjects gives the same net-delta map |
| `Subjects.MentionAndNameCancel` | command.go:180-187 | "@alice" +1 and "alice" -1 net to 0 for the single name alice |
| `Ledger.ApplyDeltasBalance` | command.go:110-120 | after ModKarma every karma is the old one (0 if absent) plus its name's net delta in that guild; a written row exists exactly when its result is nonzero |
| `Ledger.ApplyDeltasFrame` | command.go:105-108 | rows of other guilds and of names with net delta 0 are neither created, deleted nor changed |
| `Ledger.ApplyDeltasNoZeroRows` | command.go:116-120 | a store without zero rows has none after ModKarma |
| `Ledger.ApplyZeroDeltas` | command.go:105-108 | net deltas that are all 0 leave the store unchanged, however often applied |
| `Ledger.CancellingBumpChangesNothing` | command.go:100-108 | "alice" +2 and "alice" -2 change nothing and announce nothing |
| `Ledger.AnnouncesIffChanges` | command.go:115-126 | the reply has lines exactly when some name has a nonzero net delta |
| `Ledger.Store.ModKarma` | command.go:93-137 | the new store is the old one with the net deltas applied; the zero-row invariant is kept; the config row is created when missing and something changed; the reply lists every changed name's new karma exactly when something changed and NoAnnounce is false |
| `Ledger.Store.WriteDeltas` | command.go:105-122 | the loop reads or creates, bumps, and deletes or saves each changed name's row, and returns each new karma |
| `Ledger.Store.CheckKarma` | command.go:18-41 | reports, for exactly the resolved names of the message, the stored karma or 0 when there is no row; in a store without zero rows a reported 0 means the name has no row; the store is not modified |
| `Ledger.Store.LookUp` | command.go:30-35 | the loop of CheckKarma: one report per name, each the stored karma or 0 when there is no row |
| `Ledger.ReportedZeroIsNoRow` | command.go:31-33 | in a store without zero rows, a looked-up karma is 0 exactly when the name has no row |
| `Ledger.Store.SetAnnounce` | command.go:43-73 | a recognised setting stores NoAnnounce = not on for the guild and reacts; an unrecognised one changes nothing and sends the usage reply; karma rows are untouched |
| `Ledger.Store.Board` | command.go:147-175 | lists min(limit, rows of the guild) rows of that guild with their karma, no name twice, sorted in the given order, and no row left out ranks before a listed one |
| `Ledger.Store.Top` | command.go:143-145 | the board in descending karma order |
| `Ledger.Store.Bot` | command.go:139-141 | the board in ascending karma order |
| `Ledger.FirstExists` | command.go:164 | every nonempty set of rows has one that ranks first, so the ordered query can always pick its next row |
| `Ledger.TopTwoOfThree` | command.go:163-164 | Top with limit 2 over {a: 5, b: 3, c: 5} lists two rows, both of karma 5 |
| `Ledger.AnnounceGating` | command.go:124-136 | after "off", ModKarma still updates the row but stays silent; after "on", the next ModKarma announces alice's new karma 2 |

## Left out

- `cmd/popplebot/main.go`: the AMQP queues, the Discord session, the goroutines, and the JSON and template rendering are I/O and concurrency. The event envelope's package is not part of this model.
- `mux.go` is not part of this model. Beyond the kinds the tests check, `Router.Route` rests on these modelling assumptions, which the tests do not decide:
  - a keyword is matched as a bare prefix with no word boundary, so "@colt topping" routes to Leaderboard with body "ping" and "@colt karmaX++" routes to Karma;
  - no space is needed after the prefix, so "@coltannounce on" routes to Announce;
  - the BumpKarma body is the whole text when the prefix is missing, and the text after the prefix otherwise (mux_test.go:41-45 checks only the kind).
- Whitespace tolerance between prefix and keyword is a skipped test (mux_test.go:47-48), so it is not modelled.
- `ParseSubjects` (the `++`/`--` scanner) and the `Parse*Args` functions of the asynchronous path are not part of this model. `ModKarma` and `CheckKarma` take the parsed subjects directly.
- `SendHelp` and `SendVersion` send fixed strings. They are left out.
- Reply text: the "has N karma." lines of CheckKarma and ModKarma and the board's "* name (N karma)" lines are not modelled. The CheckKarma and ModKarma lines follow Go map iteration order (command.go:30, 105), so those replies are modelled as a map from name to karma. The board's rows keep the query's karma order (command.go:164) as a sequence.
- Tie order on the boards: the database leaves rows of equal karma in any order. `IsBoard` admits every such order.
- `Ledger.Store.ModKarma`: karma is an unbounded integer, so Go's 64-bit wrap-around on overflow is not modelled.
- `Subjects.MarshalSubjects`: the per-name sums are unbounded integers, so 64-bit overflow is not modelled.
- Database quirks are not modelled: gorm ignores zero-valued fields in `Where`, so an empty name or guild ID would widen a query. Database errors are not modelled either; the model assumes every call succeeds.
- The header slicing `[len(ctx.Header):]` and `ContentWithMentionsReplaced` are left out. The texts given to `SetAnnounce` and `Board` are the post-header text.
- Failed Discord sends are only logged in the source. They are left out.
