# HW Store: cart, HTML escaping and room chat relay in Dafny

This project models the three parts of the HW Store demo storefront that hold logic of their own:

- **The client cart** (`hw-store-updated-2/app.js`). `PRODUCTS` is a fixed catalog of six products. `window.cart` maps a product id to a line `{qty, name, price}`. `addToCart` and `removeOne` change it in place and then write it to the `hw_cart` storage key. The model is the class `App.Store`: `cart` is the in-memory map, and `stored` is the value last written under `hw_cart` (None while nothing has been written). The invariant `App.WellFormed` says every line has `qty >= 1` and copies the name and price of its catalog product. Both operations keep it.
- **Two HTML escapers.** The client's `escapeHtml` (`app.js`) makes one regular-expression pass and replaces `&`, `<`, `>` and `"`. The page-level `escapeHtml` (`assets/js/improvements.js`) chains five global `replace` calls, with `&` first, then `<`, `>`, `"` and `'`. Both are modelled as they are written (`App.EscapeHtml`, `Improvements.EscapeHtml`). Their partners are:
  - a per-character reference, `Improvements.EscapeChars`;
  - a decoder for the five character references, `HtmlEntities.Unescape`.
- **The chat submit guard** (`app.js`). Both input fields are trimmed with JavaScript's `trim` (`Text.Trim`). A blank message sends nothing, and a blank name becomes `'Anon'`.
- **The room-scoped chat relay** (`frontend/server.js`). The model is the class `ChatServer.Relay`. Each connection has an id, the `username` and `room` stored by its last `join`, and the set of rooms it belongs to. An outbox records every `emit` together with the set of connections it reaches. `ChatServer.Inbox` gives what one connection received. Socket.IO is treated as abstract:
  - every socket starts in a private room named by its id;
  - `socket.join(r)` adds a room and never removes one;
  - `socket.to(r)` reaches the members of `r` other than the sender;
  - `io.to(r)` reaches all members of `r`;
  - a closing socket leaves all rooms before its `disconnect` handler runs.

  The methods `Connect`, `Join`, `ChatMessage` and `Disconnect` state the whole new state, the emission they add, and the resulting change to every connection's inbox. Five client methods run the class on concrete scenarios.

Four consequences of the relay's code that a reader might not expect:

- A connection accumulates rooms. A second `join` changes where its messages go, but it keeps receiving the earlier rooms' traffic (`ChatServer.LastJoinWins`).
- A connection that never joins sends to `'global'` as `'Anon'`. It is not a member of `'global'`, so it receives neither that room's messages nor its own echo (`ChatServer.NeverJoined`). The sender sees its own message only when it belongs to the room it addresses (`ChatServer.JoinedSenderIsEchoed`, `ChatServer.UnjoinedSenderScope`).
- The `join` defaults apply only to absent fields. An empty room or name is stored and announced as given. Messages and the departure notice then fall back to `'global'` and `'Anon'`, because they read the stored fields with `||`.
- A `join` without a username resets the stored name to `'Anon'`; it does not keep the earlier name.

Files: `wrappers.dfy` (Option), `text.dfy` (counts, prefixes, `trim`), `entities.dfy` (the five references and their decoder), `app.dfy`, `improvements.dfy`, `chat_server.dfy`.

## Model

| member | source | states |
|---|---|---|
| `App.FindProduct` | HWSTORECOMPLETO-main/hw-store-updated-2/app.js:50 | `find` returns no product exactly when no catalog entry has the id; otherwise it returns the first entry with that id |
| `App.CatalogIds` | HWSTORECOMPLETO-main/hw-store-updated-2/app.js:3-10 | the catalog holds exactly the ids 1 to 6, and the product found for id `k` is the `k`-th one |
| `App.Added` | HWSTORECOMPLETO-main/hw-store-updated-2/app.js:47-52 | adding raises the id's quantity by one (from 0 when absent) and sets its name and price to the product's; every other line is unchanged |
| `App.Removed` | HWSTORECOMPLETO-main/hw-store-updated-2/app.js:69-72 | removing lowers the quantity by one; the line is deleted exactly when the new quantity is at most 0; every other line is unchanged |
| `App.AddedWellFormed` | HWSTORECOMPLETO-main/hw-store-updated-2/app.js:47-52 | adding a catalog product keeps every line at quantity ≥ 1 and matching its catalog product |
| `App.RemovedWellFormed` | HWSTORECOMPLETO-main/hw-store-updated-2/app.js:69-72 | removing one unit keeps the invariant, because a line that would reach 0 is deleted |
| `App.UnknownIdNotInCart` | HWSTORECOMPLETO-main/hw-store-updated-2/app.js:50-51 | a well-formed cart has no line for an id the catalog lacks, so the throwing path of `addToCart` leaves such a cart untouched |
| `App.AddThenRemove` | HWSTORECOMPLETO-main/hw-store-updated-2/app.js:47-72 | on a well-formed cart, `addToCart(id)` followed by `removeOne(id)` gives back the original cart |
| `App.AddThenRemoveLine` | HWSTORECOMPLETO-main/hw-store-updated-2/app.js:47-72 | the same round trip holds for any cart whose line for the id has a positive quantity and the product's name and price |
| `App.Store.Setup` | HWSTORECOMPLETO-main/hw-store-updated-2/app.js:42-43 | the cart starts as the saved value, or empty when nothing is saved; storage is untouched |
| `App.Store.AddToCart` | HWSTORECOMPLETO-main/hw-store-updated-2/app.js:47-55 | succeeds exactly for catalog ids; on success the cart is `Added` and storage holds the new cart; for an unknown id the call throws after raising an existing line's quantity in place, and storage is unchanged; the invariant is kept |
| `App.Store.RemoveOne` | HWSTORECOMPLETO-main/hw-store-updated-2/app.js:69-75 | for an id without a line, the cart and storage are unchanged; otherwise the cart is `Removed` and storage holds the new cart; the invariant is kept |
| `App.ClientReplacement` | HWSTORECOMPLETO-main/hw-store-updated-2/app.js:168 | the replacement table: a character is kept exactly when it is not `&`, `<`, `>` or `"`; a replacement holds none of `<`, `>`, `"` and decodes back to the character |
| `App.EscapeHtml` | HWSTORECOMPLETO-main/hw-store-updated-2/app.js:168 | the client escaper's output contains no `<`, `>` or `"` |
| `App.EscapeHtmlLength` | HWSTORECOMPLETO-main/hw-store-updated-2/app.js:168 | output length = input length + 4·#`&` + 3·(#`<` + #`>`) + 5·#`"` |
| `App.EscapeHtmlAmps` | HWSTORECOMPLETO-main/hw-store-updated-2/app.js:168 | every `&` in the output begins a character reference |
| `App.EscapeHtmlKeepsPlain` | HWSTORECOMPLETO-main/hw-store-updated-2/app.js:168 | a string without `&`, `<`, `>` or `"` is returned unchanged, single quotes included |
| `App.EscapeHtmlRoundTrip` | HWSTORECOMPLETO-main/hw-store-updated-2/app.js:168 | decoding the references recovers the input |
| `Text.Trim` | HWSTORECOMPLETO-main/hw-store-updated-2/app.js:144-145 | `trim` is empty exactly when the input is all JavaScript white space; otherwise it neither begins nor ends with white space |
| `Text.TrimIsInnerSlice` | HWSTORECOMPLETO-main/hw-store-updated-2/app.js:144-145 | `trim` returns the slice between the leading and trailing white space, wherever those runs end |
| `Text.TrimIdempotent` | HWSTORECOMPLETO-main/hw-store-updated-2/app.js:144-145 | trimming twice is the same as trimming once |
| `App.Submit` | HWSTORECOMPLETO-main/hw-store-updated-2/app.js:144-147 | a submit sends nothing exactly when the message is all white space; otherwise it sends the trimmed message, with the trimmed name or `'Anon'` when the name is blank |
| `App.SubmitSendsTrimmed` | HWSTORECOMPLETO-main/hw-store-updated-2/app.js:144-147 | what is sent has a non-empty message and a non-empty name, and trimming either again changes nothing |
| `App.SubmitNameTrimmed` | HWSTORECOMPLETO-main/hw-store-updated-2/app.js:145 | the name sent is never empty and has no surrounding white space |
| `Improvements.ReplaceAll` | assets/js/improvements.js:1 | a global single-character `replace`: the replaced character is gone unless the replacement holds it; every output character comes from the input or the replacement; each occurrence adds the replacement's length minus one |
| `Improvements.EscapeHtml` | assets/js/improvements.js:1 | the five-step chain's output contains none of `<`, `>`, `"`, `'` |
| `Improvements.EscapeChars` | assets/js/improvements.js:1 | the per-character substitution of the five characters leaves none of `<`, `>`, `"`, `'` |
| `Improvements.EscapeHtmlOneChar` | assets/js/improvements.js:1 | on one character, the five-step chain is the table lookup: no later step rewrites what an earlier one inserted |
| `Improvements.ChainIsSinglePass` | assets/js/improvements.js:1 | because `&` is replaced first, the chain of five replacements equals a single per-character substitution |
| `Improvements.EscapeHtmlAmps` | assets/js/improvements.js:1 | every `&` in the output begins one of the five references |
| `Improvements.EscapeHtmlLength` | assets/js/improvements.js:1 | output length = input length + 4·#`&` + 3·(#`<` + #`>`) + 5·#`"` + 4·#`'` |
| `Improvements.EscapeHtmlRoundTrip` | assets/js/improvements.js:1 | decoding the five references recovers the original string |
| `Improvements.AgreesWithClientEscaper` | assets/js/improvements.js:1 | on strings without `'`, this escaper and the client's give the same output |
| `Improvements.ClientKeepsQuote` | HWSTORECOMPLETO-main/hw-store-updated-2/app.js:168 | the two escapers differ on `'`: the client keeps it, the page escaper writes `&#39;` |
| `Improvements.ReplaceAllAppend` | assets/js/improvements.js:1 | a global single-character `replace` distributes over concatenation |
| `ChatServer.OrElse` | frontend/server.js:40-41 | JavaScript's logical OR of a string-or-undefined value with a fallback: a non-empty value is kept, an absent or empty one gives the fallback, and the result is empty only if the fallback is |
| `ChatServer.ScopeOf` | frontend/server.js:41 | the room a connection addresses is never empty: its stored room when that is non-empty, `'global'` otherwise |
| `ChatServer.NameOf` | frontend/server.js:40 | the name a connection's messages carry is never empty: its stored name when that is non-empty, `'Anon'` otherwise |
| `ChatServer.ArrivalText` | frontend/server.js:35 | the arrival notice is the name, then the 16 characters `" entrou na sala "`, then the room and a period, and nothing else |
| `ChatServer.WelcomeText` | frontend/server.js:36 | the welcome is the greeting `"Bem-vindo(a), "`, the name, the 8 characters `"! Sala: "`, then the room, and nothing else |
| `ChatServer.DepartureText` | frontend/server.js:50 | the departure notice is the name, then the 14 characters `" saiu da sala "`, then the room and a period, and nothing else |
| `ChatServer.Relay.constructor` | frontend/server.js:11 | the relay starts with no connections and nothing emitted |
| `ChatServer.Relay.Connect` | frontend/server.js:28-29 | a new connection has no stored username or room and belongs only to its private room; nothing is emitted |
| `ChatServer.Relay.Join` | frontend/server.js:31-37 | absent fields default to `'global'`/`'Anon'` and empty strings are kept; the stored username and room are overwritten; the room is added and no earlier room is left; no other connection changes; the arrival text goes to the room's other members and then the welcome text to the joiner alone, and every inbox changes accordingly |
| `ChatServer.Relay.ChatMessage` | frontend/server.js:39-45 | the state is unchanged; one `{username, text, ts}` payload is built from the stored fields, with `'Anon'`/`'global'` for unset or empty ones; it reaches exactly the members of that room, the sender included when it is one |
| `ChatServer.Relay.Disconnect` | frontend/server.js:47-52 | the connection is removed; exactly one emission is added, the departure text with its stored name and room, delivered to the other members of that room and to nobody else |
| `ChatServer.JoinedSenderIsEchoed` | frontend/server.js:32-44 | a connection whose last join named a non-empty room belongs to the room its messages go to, so it sees them echoed back |
| `ChatServer.UnjoinedSenderScope` | frontend/server.js:40-44 | a connection with missing or empty stored room sends to `'global'`, and is echoed exactly when it belongs to `'global'` |
| `ChatServer.SameRoom` | frontend/server.js:31-44 | two members of "lobby": a message reaches both, the sender included |
| `ChatServer.OtherRoom` | frontend/server.js:43-44 | a connection in another room receives nothing of the message |
| `ChatServer.NeverJoined` | frontend/server.js:40-44 | a connection that never joined sends `{'Anon', text, ts}` to `'global'`'s members, here nobody, itself included |
| `ChatServer.Departure` | frontend/server.js:47-50 | the room's remaining member gets one departure notice naming the leaver and the room; a member of another room gets nothing |
| `ChatServer.LastJoinWins` | frontend/server.js:31-44 | after two joins, messages go to the last room under the last name (`'Anon'` when none was given), while the earlier room is still heard |

## Left out

- All of `HWSTORECOMPLETO-main/backend/server.js`: OAuth login, MongoDB lookups, JWT signing and the weather proxy are foreign libraries and I/O. Its chat is a one-line broadcast to everyone.
- `HWSTORECOMPLETO-main/hw-store-updated-2/server.js`: it is a single broadcast call plus logging.
- Weather code (`fetchWeather`, `setupWeather`, `loadWeather`, `safeFetch`): network calls, timers and floating-point rounding.
- DOM work: rendering products and the cart, theme and profile, message display and input clearing, `toFixed(2)` price formatting. The `renderCart` call after each cart change is not modelled.
- Socket.IO transport: connection setup, CORS, actual delivery and its order among the recipients of one emit (recipients are a set), best-effort loss, and the client-side socket handlers. The clients' event names (`chat.message`) do not match the server's (`chat-message`); this is wiring and is not modelled.
- `Date.now()` is the parameter `now` of `ChatMessage`. `console.log` calls are left out.
- The rate limiter and the health endpoint of `frontend/server.js`: library configuration.
- `App.Store.Setup`: `hw_cart` is modelled as the cart value itself, not as JSON text. The saved cart is assumed to have integer keys and lines with integer quantities. Malformed saved data is not modelled: string keys, missing or non-numeric `qty` (where `qty++` gives `NaN`), non-object lines.
- `App.Store.AddToCart`, `App.Store.RemoveOne`: quantities are unbounded integers. JavaScript numbers lose precision above 2^53, which is not modelled.
- Cart keys are modelled as integers. In JavaScript they are property names, so `cart[1]` and `cart["1"]` are the same line; the model has only the numeric form.
- `ChatServer.Relay.Join`: join payload fields are modelled as absent or a string. Other JSON values (`null`, numbers, objects) are not modelled. Neither is a `null` payload, which makes the destructuring throw. A missing payload is the same as both fields absent.
- `ChatServer.Relay.Disconnect`, `ChatServer.Relay.Join`: Socket.IO's `socket.to(r)` leaves out every socket in the sender's own private room, not only the sender. The model leaves out the sender alone. The two differ only when some connection has joined a room named by another connection's id, which random ids make contrived; such a connection would miss that sender's arrival and departure notices, which the model delivers.
- `ChatServer.Relay.ChatMessage`: the message is modelled as a string. The server forwards any JSON value unchanged.
- `Improvements.EscapeHtml`: only string inputs are modelled, so `String(s)` conversion of other values is left out. The replacement strings contain no `$` patterns, so `replace` inserts them literally, as modelled.
- Strings are sequences of Unicode scalar values, while JavaScript strings are UTF-16 code units. Every character that the escapers and `trim` inspect is in the Basic Multilingual Plane, so they agree. Lone surrogates cannot be represented.
