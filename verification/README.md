# StarBotShop core, modelled in Dafny

StarBotShop is a Telegram bot that sells Telegram Stars. A user chooses
whether the stars are for themself or a gift. A gift needs the friend's
`@username`. The user then enters an amount and gets a YooMoney payment link
with a price and a payment comment (the memo). A JSON file holds one record
per user: display name, referral count, earnings and referrer. Referral links
`https://t.me/<bot>?start=r<id>` attribute new users to whoever shared them.

This project models the pure logic of `main.py` as immutable data and total
functions. Telegram and file I/O are left out.

- `base.dfy`, module `Base`: `Option` and the first-match search
  (`FirstIndex`) behind both `uid in data` and the username scan.
- `text.dfy`, module `Text`: Python's `str(int)` (`IntToString`), `int(str)`
  (`ParseInt`), ASCII `lower()` and `strip()`.
- `ledger.dfy`, module `Ledger`: `UserDataManager`. The data file is an ordered
  sequence of `(str(user_id), record)` pairs. Dict insertion order is kept,
  because it decides which user a username search finds first.
- `referral.dfy`, module `Referral`: `generate_referral_link`, parsing of the
  `/start` argument, and what `/start` does to the ledger.
- `conversation.dfy`, module `Conversation`: the chat state
  (`awaiting_friend_username`, `awaiting_amount`, `friend_username`),
  `purpose_handler`, `handle_text_input`, the price and the memo.
- `bot.dfy`, module `Bot`: one step per incoming update over the ledger, the
  learned bot username and every chat, plus invariants over any run.

Prices are integer kopecks. `max(2, round(amount * 0.05, 2))` roubles becomes
`max(200, 5 * amount)` kopecks. That is exact for the integer amounts the bot
accepts, and `Price` shows the 2-rouble floor never applies to them.

Behaviours of the code the model keeps, which a reader might not expect:
- `add_referral` runs on every `/start` that carries a non-zero code, not only
  when the account is created (`RepeatedStartCountsTwice`).
- Self-referral is not excluded (`SelfReferralCounts`).
- A referrer id that names no one is still stored as `referred_by`.
- `/start` does not reset the chat state.
- The code has no balance, no "I paid" button and no admin accept/decline
  settlement. None of these is modelled.
- `total_earned` is never accrued, so it stays zero (`EarningsStayZero`).
- When several users share a display name, the username search picks the
  first one in file order.
- The bot username is learned only from `get_me` during `/start`. Until then,
  links carry an empty bot name (`LinkBeforeFirstStart`).

## Model

| member | source | states |
|---|---|---|
| Base.FirstIndex | main.py:89-91 | the result is the first position whose element passes the test; none is returned exactly when no element passes |
| Text.ParseInt | main.py:195-199 | `int(text)` succeeds exactly on an optional sign followed by one or more ASCII digits; a negative result comes from a leading `-` |
| Text.ParseIntValue | main.py:196 | a run of digits reads as its decimal value whatever its leading zeros; a leading `+` keeps the value and a leading `-` negates it |
| Text.IntRoundTrip | main.py:84 | reading back the rendering `str(id)` gives `id` again |
| Text.IntToString | main.py:57 | `str(n)` is non-empty and starts with `-` exactly for negative `n` |
| Text.IntToStringInjective | main.py:57 | distinct user ids give distinct dictionary keys `str(user_id)` |
| Text.CanonicalRoundTrip | main.py:133 | a literal without `+`, leading zeros or `-0` is exactly the rendering of the value it parses to |
| Text.Strip | main.py:168 | the stripped text is a contiguous slice of the input; everything cut off is white space; the result neither starts nor ends with white space |
| Text.Lower | main.py:90 | `lower()` keeps the length, leaves no ASCII upper-case letter, maps each upper-case letter to its lower-case partner and keeps every other character |
| Ledger.GetOrCreate | main.py:53-66 | an existing uid gives back the store unchanged and the stored record; a new uid appends exactly one record with 0 referrals, 0 earned and the given name and referrer; no other key's record changes; keys stay unique |
| Ledger.Lookup | main.py:78-79 | a record is found under a key exactly when some entry of the store carries that key, and the record found is one stored under that key |
| Ledger.GetOrCreateIdempotent | main.py:56-66 | a second get-or-create with any name or referrer changes nothing and returns the first call's record |
| Ledger.AddReferral | main.py:68-73 | a present referrer gets exactly one more referral and nothing else in its record changes; an absent referrer leaves the store unchanged; no other key's record changes; keys and order are kept |
| Ledger.GetUserStats | main.py:75-81 | a known uid gives its stored (referrals, total earned); an unknown uid gives (0, 0) |
| Ledger.StatsAfterAddReferral | main.py:68-81 | after `add_referral` a registered referrer's stats show one more referral; every other user's stats are unchanged |
| Ledger.StatsOfNewUser | main.py:58-64 | a user just created has stats (0, 0) |
| Ledger.FindUserByUsername | main.py:86-92 | the result is the key of the first entry in store order with a non-empty username equal to the query up to ASCII case; none exactly when no entry matches |
| Ledger.FindEmptyQuery | main.py:90 | an empty query never finds a user |
| Ledger.FindIgnoresCase | main.py:90 | two queries equal up to case find the same user |
| Referral.ParseReferral | main.py:129-135 | a referrer is found exactly when the first argument starts with `r` and the rest is an integer literal; it is that integer |
| Referral.ReferralRoundTrip | main.py:83-84 | the start parameter of a user's link parses back to that user's id |
| Referral.ReferralLinkInjective | main.py:83-84 | different users get different links from the same bot |
| Referral.CreditedReferrer | main.py:138 | a referral is credited exactly when a code was parsed and it is not 0 |
| Referral.StartLedger | main.py:129-139 | after `/start` the sender is registered; keys stay unique |
| Referral.Credit | main.py:138-139 | crediting keeps the store's length and every record except the credited referrer's, which gains exactly one referral when it exists; keys stay unique |
| Referral.StartRegistersNewUser | main.py:137-139 | a first `/start` stores the display name and the parsed code as referrer, with nothing earned and no referrals unless the code is the sender's own |
| Referral.StartFrame | main.py:137-139 | `/start` changes no record except the sender's and the credited referrer's |
| Referral.StartCreditsReferrer | main.py:138-139 | a `/start` with another registered user's non-zero code adds exactly one referral to that user and changes nothing else in the record |
| Referral.RepeatedStartCountsTwice | main.py:137-139 | two `/start`s with the same code from the same user add two referrals |
| Referral.UnknownReferrerIsHarmless | main.py:68-73 | an unknown referrer is no error: the new user is created and keeps the code, and no record appears for the referrer |
| Referral.SelfReferralCounts | main.py:129-139 | a new user who opens their own link is their own referrer and has one referral |
| Conversation.PurposeHandler | main.py:154-165 | `purpose_self` sets awaiting-amount and `purpose_friend` sets awaiting-friend; neither touches the other flag or the stored handle; other payloads change nothing |
| Conversation.Price | main.py:207 | the price is at least 200 kopecks and at least 5 kopecks per star; for 50 stars or more it is exactly 5 per star and at least 250 |
| Conversation.MemoInjective | main.py:208 | two memos are equal exactly when amount and payer id both are |
| Conversation.FriendStep | main.py:170-192 | text without `@` leaves the state unchanged and asks for the format; an `@` handle that names no registered user leaves the state unchanged and replies with the sender's referral link; a resolved handle stores the full text, clears awaiting-friend and sets awaiting-amount |
| Conversation.AmountStep | main.py:194-214 | a non-integer or an amount outside [50, 1000000] leaves the state unchanged with the matching error; a valid amount clears awaiting-amount and offers 5 kopecks per star with the memo of amount and payer |
| Conversation.MenuStep | main.py:216-231 | the buy text opens the purpose choice; the referral text shows the stored stats and the sender's link; anything else gets no answer |
| Conversation.HandleTextInput | main.py:167-226 | the stripped text goes to the handle step whenever a handle is awaited, otherwise to the amount step whenever an amount is awaited, otherwise to the menu with the state unchanged; menu replies and payment offers come only in those states; the stored handle changes only by a resolved handle |
| Conversation.FriendHandleTakesPrecedence | main.py:170-173 | with both flags set, even a valid amount is read as a bad handle and nothing changes |
| Conversation.IdleTextIsMenu | main.py:216-226 | with nothing awaited, exactly the two menu texts get answers, and the state is unchanged |
| Conversation.GiftPathOffersPayment | main.py:163-208 | from any chat state, the gift button, a registered friend's handle, then a valid amount: the handle is kept, nothing is awaited, and the payment is offered for that amount |
| Conversation.SelfPathOffersPayment | main.py:159-214 | from a chat not awaiting a friend's handle, the self button then a valid amount: nothing is awaited, the stored handle is untouched, and the payment is offered for that amount |
| Bot.DisplayName | main.py:123 | the Telegram username when non-empty, otherwise the first name |
| Bot.Step | main.py:110-118 | `/start` applies the `/start` ledger effect for the sender's display name and learns the bot username; `/menu` changes nothing; a `purpose_` button goes to the purpose handler and any other button is ignored; text goes to the text handler over the sender's chat; only `/start` writes the ledger; no update changes another user's chat; keys stay unique |
| Bot.StepGrows | main.py:53-73 | no update removes a user or changes a name, referrer or earnings; referral counts never decrease |
| Bot.RunGrows | main.py:53-73 | over any sequence of updates keys stay unique and the ledger only grows |
| Bot.StepKeepsNothingEarned | main.py:59-64 | if nobody has earned anything before an update, nobody has after it |
| Bot.EarningsStayZero | main.py:62 | from a ledger with zero earnings, every record's earnings stay zero over any run |
| Bot.NoStartKeepsLedger | main.py:110-118 | a run without `/start` leaves the ledger and the learned bot username as they were |
| Bot.LinkBeforeFirstStart | main.py:126-127 | after a (re)start over any data file and any run without `/start`, an idle chat's referral page shows the stored stats and a link with an empty bot name |

## Left out

- Telegram transport: `Update`, `ContextTypes`, `reply_text`, `edit_message_text`, `query.answer()`, keyboards, HTML parse mode and message wording. Replies are modelled only as the `Reply` kind and its data.
- The `get_me` call is a parameter (`me`) of `Bot.Step`.
- Handler routing by `python-telegram-bot` is taken as given. Commands other than `/start` and `/menu` never reach the model, and text is already sorted into commands and non-commands.
- Reading and writing `user_data.json` with aiofiles. The ledger is an in-memory value. A missing or corrupt file reads as `EmptyStore`, and the error log line is not modelled.
- Records in a hand-edited file may lack fields (`user.get("username")`). The model's records always carry all four fields.
- The `asyncio.Lock` and the interleaving of concurrent load-mutate-save sequences. Each operation is one atomic step here, so lost updates between concurrent handlers are not modelled.
- Loading `.env`, the missing-token `ValueError`, logging setup and `run_polling`.
- Floating point. `total_earned` is an integer, and the price is integer kopecks. The float rounding and the `price_rub` text in the YooMoney URL are not modelled, and the URL is reduced to price and memo.
- Python's `int()` also accepts surrounding white space, underscores between digits and non-ASCII digits. `str.lower()` also folds non-ASCII letters. Only ASCII digits with an optional sign, and ASCII case folding, are modelled.
- Conversation.FriendStep: its claims about the resulting state assume a store whose keys are unique and non-empty, as every key the bot writes is. The function itself, like the source, treats a found empty key as "not found".
