# Discord community bot: a verified model of its core

The bot moderates a Discord community and runs the tasks its web dashboard
configures. This project models, in Dafny, the parts of it that decide things:

- **Moderation** (`moderation.dfy`, module `Moderation`) covers the message handler.
  - It ignores bots.
  - It checks every enabled moderation rule in store order, each limited to its channels.
  - The spam/flood rules keep a sliding window of timestamps per guild and author.
  - The caps, link and banned-word rules test the message text.
  - The first rule that fires deletes the message and applies the punishment (timeout, kick, ban or warn) with its feedback.
  - The `muteUser`/`unmuteUser` bookkeeping keeps a table of pending auto-unmute timers.
- **Scheduler** (`scheduler.dfy`, module `Scheduler`) covers the scheduled-task dispatcher.
  - It builds the cron expression for a daily, weekly or monthly task.
  - It decides on a one-shot timer for a task that runs once.
  - It runs the registration loop at start-up and on reload. A reload cancels nothing.
  - It executes a task: the readiness and enabled guards, the channel checks, and the replacement of every `{{EXPULSADOS}}` by the expelled-student count. That count is the number of `NSL` members minus the number of `Estudiante Privado Oficial` members.
- **Actions** (`actions.dfy`, module `Actions`) is the dashboard's store of configured actions: a dictionary from action type to a list of JSON records.
  - It covers the create, toggle, delete and get handlers.
  - It covers the generated names and descriptions.
  - It covers the shape of a fresh store.
- **Dashboard** (`dashboard.dfy`, module `Dashboard`) is the dashboard's API:
  - the cookie guard;
  - `send-message` validation and error statuses;
  - the role list (filtered and sorted);
  - the statistics counts;
  - the expelled-count endpoint;
  - the channel and server lists.
- **ClientHelpers** (`client.dfy`, module `ClientHelpers`) holds the dashboard page's helpers:
  - the case-insensitive channel search;
  - the default 20-item dropdown;
  - `adjustColor`, which shifts each RGB component and re-encodes the colour as hex.

Shared definitions live in `common.dfy` (`Option` and Node's `setTimeout` delay rule), `collections.dfy` and `text.dfy`. `collections.dfy` holds filter, map, count, subsequence and a stable descending sort. `text.dfy` models the JavaScript string operations the code uses:
- ASCII `toLowerCase` and `trim`;
- `includes`;
- `toString` in bases 10 and 16;
- `parseInt(_, 16)`;
- `padStart`;
- a global literal `replace`.

Where the code mutates state, the model is imperative and is proved against pure specification functions:
- `ModerationEngine` holds the message windows.
- `MuteManager` holds the timer table and the armed timers.
- `TaskScheduler` holds the live timers and cron jobs, with a virtual clock.
- `ActionStore` holds the actions dictionary.
- `ListChannels` and `ListServers` are loops that push into a list.

Platform calls appear in two forms:
- as traces of effect values in issue order: deleting, punishing, sending, and adding or removing roles;
- as inputs that say what the platform answers: channel kinds, role counts, fetch failures and client readiness.

The clock is a `now` parameter in milliseconds.

The model follows the code as written, including where it does less than its comments and documentation suggest:
- The expelled count is not clamped at 0 and may be negative.
- A rate window keeps timestamps strictly after the cutoff.
- A reload registers every task again without cancelling the earlier registrations.
- Re-muting does not clear the earlier timer, whose callback later deletes the member's key.
- A one-shot task whose time has passed is neither run nor disabled.

## Model

| member | source | states |
|---|---|---|
| `Moderation.RecordTimestamp` | moderation.js:37-49 | The new window holds exactly the earlier timestamps and `now` that are strictly later than `now - timeWindow*1000`, in their order. With a positive window, `now` is kept and is last. |
| `Moderation.ShoutingIsRatio` | moderation.js:58-59 | The integer test `10*caps > 7*length` (with length > 10) is the same as the ratio test `caps/length > 0.7`, where length is the text's `length` in UTF-16 code units. |
| `Moderation.ShoutingCountsCodeUnits` | moderation.js:58-59 | Nine capitals followed by one emoji (ten characters, eleven code units) count as shouting, because the emoji's surrogate pair makes the length 11. |
| `Text.Utf16Length` | moderation.js:58-59 | A text's `length` lies between its number of characters and twice that, and equals the number of characters when none is beyond U+FFFF. |
| `Moderation.HasLinkIff` | moderation.js:66-67 | The link search succeeds exactly when `http://` or `https://` followed by a non-space character occurs at some position. |
| `Moderation.BannedWordIgnoresCase` | moderation.js:74-76 | The banned-word test gives the same answer for a text and for its lower-cased form. |
| `Moderation.CheckRule` | moderation.js:23-80 | An out-of-scope rule does nothing. A rate rule replaces only the author's window and fires exactly when the window holds more than the limit (default 5). Caps, link and banned-word rules fire exactly when their predicate holds and touch no window. Unknown kinds never fire. A verdict's reason is `Spam detectado: <n> mensajes en <window>s` for a rate rule, `Uso excesivo de mayúsculas` for caps, `Link no permitido` for links and `Palabra prohibida detectada` for banned words. |
| `Moderation.EvaluateAppend` | moderation.js:18-130 | Checking `a + b` checks `a` first and checks `b` (from the windows `a` left) only when nothing in `a` fired. |
| `Moderation.FirstMatchWins` | moderation.js:82-130 | When no earlier rule fires and rule `r` does, the result is `r`'s verdict and windows, whatever rules follow it. |
| `Moderation.VerdictFromInScopeRule` | moderation.js:18-26 | A verdict always comes from one of the rules, and from one whose channel list is empty or names the message's channel. |
| `Moderation.EvaluateOnlyTouchesAuthorWindow` | moderation.js:37-49 | Evaluation leaves every window other than the message's `guildId-authorId` window as it was. |
| `Moderation.NoRateRuleNoWindowChange` | moderation.js:33-55 | With no spam/flood rule, evaluation changes no window. |
| `Moderation.RateRuleThreshold` | moderation.js:34-51 | When all earlier timestamps are inside the window, a rate rule fires exactly when the earlier count plus one exceeds the limit. |
| `Moderation.Enforce` | moderation.js:82-127 | No verdict means no call. A verdict first deletes the message, and an unknown punishment does nothing more. The second call is the punishment: a timeout of `duration*1000` ms (the default punishment, with duration 60 by default), a kick or a ban with the reason, or for `warn` the channel post `⚠️ <author> Advertencia: <feedback>`. The feedback is the rule's `moderationMessage` when non-empty, else the reason. A failing punishment is followed only by the permission notice. After a successful timeout, kick or ban comes its confirmation post, and the notice follows exactly when that post fails. |
| `Moderation.ModerationEngine.constructor` | moderation.js:38 | The engine starts with no windows. |
| `Moderation.ModerationEngine.HandleMessage` | moderation.js:8-136 | A bot's message changes nothing and causes no call. Otherwise the windows and the calls are those of the in-order, first-match evaluation of the rules, followed by its enforcement, given which platform calls fail. |
| `Moderation.ModerationEngine.ApplyRule` | moderation.js:23-80 | One loop iteration has the verdict and the window update that `CheckRule` specifies. |
| `Moderation.ClearTimer` | moderation.js:205 | Clearing a handle removes exactly the timers with that handle and keeps the order of the rest. |
| `Moderation.ClearTimerRemovesOne` | moderation.js:205 | With distinct handles, clearing a handle that is armed removes exactly one timer, clearing one that is not changes nothing, and the handles stay distinct. |
| `Moderation.MuteManager.constructor` | moderation.js:4 | The timer table starts empty, with no armed timer. |
| `Moderation.MuteManager.MuteUser` | moderation.js:139-188 | A missing guild or member gives that error and changes nothing. When the `Muted` role is absent and its creation fails, the error follows the create call alone. When adding the role fails, the error follows the create call (if the role was absent) and the add call. On success the role is created if absent and then added. A new timer of `duration*1000` ms (as Node clamps it) is armed with a fresh handle, the member's key points to it, and earlier timers stay armed. |
| `Moderation.MuteManager.UnmuteUser` | moderation.js:190-215 | A missing guild or member gives that error. The role is removed only if the member holds it, and a failing removal gives an error with the timer table untouched. On success the key is absent afterwards, and the armed timer it named (if any) is cleared, leaving one timer fewer. |
| `Moderation.MuteManager.FireTimer` | moderation.js:167-178 | A firing timer removes the role if the member still holds it. It deletes the member's key whichever timer that key names, and it disarms itself. Any armed timer may be the one that fires, so every order of expiry is covered. |
| `Moderation.ReMuteScenario` | moderation.js:167-180 | After two mutes and the first timer firing, an unmute succeeds with no call, and the second timer is still armed. |
| `Moderation.UnmuteTwiceScenario` | moderation.js:198-209 | The first unmute removes the role. A second unmute succeeds with no platform call. |
| `Scheduler.CronRoundTrip` | scheduler.js:103-118 | The text of any five-field schedule reads back as the same schedule. |
| `Scheduler.ExpressionIsText` | scheduler.js:99-120 | For daily, weekly and monthly, the expression is the text of the intended schedule: `m h * * *`, `m h * * dow` and `m h dom * *`, with defaults 09:00, Monday and the 1st. |
| `Scheduler.CronExpressionSchedule` | scheduler.js:93-124 | An expression exists exactly for `diaria`, `semanal` and `mensual`, and it parses to the intended schedule. `una-vez` and unknown frequencies give none. |
| `Scheduler.OneShotRegistration` | scheduler.js:126-139 | A one-shot timer is registered exactly when `target - now > 0`. It fires at the target time when the target is at most 2^31-1 ms ahead. A target further ahead fires 1 ms after registration, because Node replaces an over-long delay with 1 ms. |
| `Common.TimerDelay` | scheduler.js:131-135 | The delay `setTimeout` waits is always between 1 and 2^31-1 ms. It is the requested delay when that lies in this range, and 1 ms otherwise. |
| `Scheduler.RowRegistrationCases` | scheduler.js:162-171 | Per row, exactly one of these happens: a one-shot (for `una-vez` with a future date), a recurring job (daily, weekly or monthly), or nothing. |
| `Scheduler.Registrations` | scheduler.js:152-172 | One run adds at most one registration per row, each for one of the rows. |
| `Scheduler.NoRowNoRegistration` | scheduler.js:152-172 | No registration is made for an id that no row has. |
| `Scheduler.OneRegistrationPerRow` | scheduler.js:152-172 | With distinct ids, a row has exactly one registration if it registers anything, and none otherwise. |
| `Scheduler.DailyJobMatches` | scheduler.js:99-105 | A daily task with a date fires at exactly the wall-clock minutes with that minute and hour. |
| `Scheduler.CalculateExpelled` | scheduler.js:56-75 | With the guild fetched and both roles present, the count is the unclamped difference of their member counts. Otherwise it is 0. |
| `Scheduler.ExpelledMayBeNegative` | scheduler.js:68-70 | 5 `NSL` members and 9 students give -4. |
| `Scheduler.ExecuteScheduledTask` | scheduler.js:11-54 | An unready client or a disabled task sends nothing and counts nothing. A generic task sends exactly when it has a channel and a message and the channel is text-based. It computes the count exactly when it sends a message containing the token, so a generic message without the token is sent unchanged and triggers no count. An enabled `estudiantes-expulsados` report always computes the count, and it is sent exactly when its message is non-empty and its channel is text-based. A sent message has every token replaced by the count, and no sent message contains the token. |
| `Scheduler.ReportHasNoToken` | scheduler.js:81 | Filling in any count leaves no `{{EXPULSADOS}}` in the message. |
| `Scheduler.ExpelledTemplateExample` | scheduler.js:42-47 | `Expulsados: {{EXPULSADOS}}` with counts 10 and 7 sends `Expulsados: 3`. |
| `Scheduler.TaskScheduler.InitScheduler` | scheduler.js:141-178 | The loop appends to the live registrations exactly the registrations of the rows, in row order. |
| `Scheduler.TaskScheduler.ReloadScheduledTasks` | scheduler.js:181-186 | A reload appends the rows' registrations again and cancels nothing. |
| `Scheduler.TaskScheduler.AdvanceClock` | scheduler.js:131-134 | Moving the clock fires the due one-shot timers (due at the clamped time `OneShotRegistration` gives) in `FiringOrder` and drops exactly them. Every other registration stays, with its multiplicity and in its order. |
| `Scheduler.FiresEachDueOneShotOnce` | scheduler.js:131-134 | The firing order holds each due one-shot exactly as often as it is registered and nothing else, in ascending order of due time. |
| `Scheduler.ReloadScenario` | scheduler.js:181-186 | A daily task loaded at start-up and again on reload has two identical live jobs. |
| `Actions.FieldOr` | api/actions.js:168 | A template slot with a default is the field's text when the field is present and truthy, and the fallback otherwise. |
| `Actions.GenerateActionName` | api/actions.js:166-176 | A type outside the five known types is named `Acción`. |
| `Actions.GenerateActionDescription` | api/actions.js:178-188 | A type outside the five known types is described as `Sin descripción`. |
| `Actions.TemplatesReadOnlyTheirKeys` | api/actions.js:166-188 | Name and description depend only on the fields that the type's templates read. |
| `Actions.DefaultNames` | api/actions.js:168-172 | With no data, each of the five types' names uses every default. |
| `Actions.DefaultDescriptions` | api/actions.js:180-184 | With no data, each of the five types' descriptions uses every default. |
| `Actions.NewAction` | api/actions.js:88-95 | A new action has `enabled = true` and the generated name, description and `createdAt`, which override the client's. Its `id` is the client's if the client sent one, otherwise the creation time. Every other client field is kept as sent. |
| `Actions.SetEnabled` | api/actions.js:132 | Only `enabled` changes. A missing body value removes it. |
| `Actions.SetEnabledRestores` | api/actions.js:132 | Setting `enabled` back to its former value restores the record. |
| `Actions.FindFirst` | api/actions.js:123 | The position found holds the id, no earlier record holds it, and none is found exactly when no record holds it. |
| `Actions.DefaultStore` | api/actions.js:40-46 | A fresh store has exactly the five types, each with an empty list. |
| `Actions.Get` | api/actions.js:70 | A known type gives its stored list, and an unknown type gives the empty list. |
| `Actions.Toggled` | api/actions.js:117-143 | A missing type gives a server error and a missing id gives not found. In both cases nothing is saved. |
| `Actions.Deleted` | api/actions.js:145-161 | A missing type gives a server error and nothing changes. Otherwise the set of types stays the same. |
| `Actions.CreateAppendsOne` | api/actions.js:97-101 | Create appends exactly one action to its type's list, creating the list if needed, and leaves every other type alone. |
| `Actions.ToggleChangesFirstMatchOnly` | api/actions.js:123-133 | A successful toggle changes only the first record with the id, and only its `enabled`. |
| `Actions.ToggleBack` | api/actions.js:132 | Toggling to a value and back to the former value restores the store. |
| `Actions.DeleteRemovesEveryMatch` | api/actions.js:150 | After delete, no record with the id is left, every other record keeps its multiplicity, and the list is a subsequence of the old one. Other types are unchanged. |
| `Actions.DeleteIdempotent` | api/actions.js:150 | Deleting the same id twice is the same as deleting it once. |
| `Actions.CreateThenDelete` | api/actions.js:81-161 | Creating an action with a fresh id and then deleting that id gives back the store. |
| `Actions.ActionStore.constructor` | api/actions.js:30-54 | A missing file yields the default store. |
| `Actions.ActionStore.GetActions` | api/actions.js:63-79 | The get handler returns the stored list of a known type and the empty list for an unknown one, and changes nothing. |
| `Actions.ActionStore.Create` | api/actions.js:81-115 | The create handler returns the new action and leaves the store with it appended. |
| `Actions.ActionStore.Toggle` | api/actions.js:117-143 | The toggle handler's status and store are those of `Toggled`. |
| `Actions.ActionStore.Delete` | api/actions.js:145-161 | The delete handler's status and store are those of `Deleted`. |
| `Dashboard.RequireAuth` | api/discord.js:6-25 | A missing or empty cookie gets 401 `No autenticado`, a token that does not verify gets 401 `Token inválido`, and otherwise the route's own answer is returned. |
| `Dashboard.UnauthenticatedRouteIgnored` | api/discord.js:9-14 | Without a valid token, the route's answer is never seen. |
| `Dashboard.FindGuild` | api/discord.js:81 | The guild found has the id, and none is found exactly when no guild has it. |
| `Dashboard.FindRole` | api/discord.js:287-288 | The role found is the first role with the name, and none is found exactly when no role has it. |
| `Dashboard.SendMessage` | api/discord.js:149-183 | A missing channel id or message gets 400 before any platform call. An unready client gets 500 `Error enviando mensaje: Timeout esperando la conexión del bot` after waiting only. An unknown channel gets 500 `Error enviando mensaje: Unknown Channel` after the fetch. A channel that is not text-based gets 404 `Canal no encontrado o no es de texto`. A text channel is sent the message, and the reply is `Mensaje enviado correctamente`, or 500 `Error enviando mensaje: <msg>` when the send fails. Each branch states the exact platform calls made. |
| `Dashboard.RoleList` | api/discord.js:90-98 | The roles list is sorted by position, descending, and is a permutation of the entries of the roles other than `@everyone`. |
| `Dashboard.RoleListMembership` | api/discord.js:90-97 | An entry is listed exactly when it comes from a role other than `@everyone`. |
| `Dashboard.GetRoles` | api/discord.js:75-111 | An unready client gets 503 and an unknown guild gets 404 `Servidor no encontrado`. A ready client asking for a known guild always gets that guild's role list. |
| `Dashboard.GuildStats` | api/discord.js:228-258 | `onlineMembers` is 0 exactly when no member is online, idle or dnd, and it is at most the number of members fetched. The stats role list excludes `@everyone`, is sorted by member count descending, and is a permutation of the guild's other roles. |
| `Dashboard.StatsCounts` | api/discord.js:230-237 | The counts are the sizes of the filtered lists: active members, type-0 channels and type-2 channels. Text plus voice is at most the channel count. |
| `Dashboard.GetStats` | api/discord.js:213-266 | The route succeeds exactly when the client is ready, the guild exists and the member fetch succeeds. A success holds that guild's statistics. An unready client gets 500 `Error obteniendo estadísticas: Timeout esperando la conexión del bot`, an unknown guild 404 `Servidor no encontrado`, and a failed fetch 500 `Error obteniendo estadísticas: <msg>`. |
| `Dashboard.ExpelledOf` | api/discord.js:287-309 | With both roles, `expelled` is the unclamped difference. With either missing, it is 0, each present role reports its count, an absent one reports 0, and there is a warning. |
| `Dashboard.CalculateExpelled` | api/discord.js:269-317 | The route succeeds exactly when the client is ready, the guild exists and the fetch succeeds, and then holds that guild's report. An unknown guild gets 404 `Servidor no encontrado`. An unready client gets 500 `Error calculando expulsados: Timeout esperando la conexión del bot`, and a failed fetch 500 `Error calculando expulsados: <msg>`. |
| `Dashboard.DashboardAgreesWithScheduler` | api/discord.js:287-302 | The endpoint's count equals the count the scheduled report substitutes. |
| `Dashboard.GuildChannelsMembership` | api/discord.js:51-58 | A guild contributes exactly its text-based channels, tagged with its name and id. |
| `Dashboard.ChannelsOfMembership` | api/discord.js:50-60 | The channel list holds exactly the text-based channels of all guilds, each tagged with its guild. |
| `Dashboard.ListChannels` | api/discord.js:43-73 | An unready client gets 503. Otherwise the list is each guild's tagged text channels, guild after guild. |
| `Dashboard.ListServers` | api/discord.js:185-211 | An unready client gets 503. Otherwise there is one entry per guild, in order, with the guild's id, name and member count. |
| `ClientHelpers.FilterChannels` | public/script.js:91-102 | A term that is blank after lower-casing and trimming returns every channel. The result is never longer than the list. |
| `ClientHelpers.FilterChannelsKeepsOrder` | public/script.js:98 | The result is a subsequence of the channel list. |
| `ClientHelpers.FilterChannelsMembership` | public/script.js:92-101 | With a term that is not blank, a channel is returned exactly when the trimmed, lower-cased term occurs in its lower-cased name or guild name. |
| `ClientHelpers.FilterChannelsMultiplicity` | public/script.js:92-101 | Each entry appears in the result as often as in the list when the term is blank or matches it, and not at all otherwise. |
| `ClientHelpers.FilterChannelsIgnoresCase` | public/script.js:92 | A term and its lower-cased form find the same channels. |
| `ClientHelpers.OnFocus` | public/script.js:151-158 | With text in the box and no selection, the dropdown shows the search results. With an empty box, it shows the first `min(20, n)` channels in order. Otherwise it is left as it is. |
| `ClientHelpers.Clamp` | public/script.js:321 | The result is in 0..255, is the input when that is in range, and is otherwise the nearest bound. |
| `ClientHelpers.ToInt32` | public/script.js:323-325 | The operand of `>>` and `&` is the 32-bit signed value congruent to the number. It is the number itself when that is below 2^31. |
| `ClientHelpers.RemoveFirstHash` | public/script.js:322 | The first `#`, wherever it is, is removed and the rest is kept in order. A text without `#` is unchanged. |
| `ClientHelpers.ShiftedValue` | public/script.js:323-326 | The recombined value fits in 24 bits. |
| `ClientHelpers.AdjustColor` | public/script.js:320-327 | The result is `#` followed by exactly six lower-case hex digits. |
| `ClientHelpers.AdjustColorValue` | public/script.js:326 | The six digits denote the recombined, shifted value. |
| `ClientHelpers.AdjustColorComponents` | public/script.js:321-326 | Each pair of output digits is the corresponding input component plus `amount`, clamped to 0..255. |
| `ClientHelpers.AdjustByZero` | public/script.js:322-326 | Shifting a six-hex-digit colour by 0 returns its lower-cased form. |
| `ClientHelpers.HexColorNumber` | public/script.js:322 | The number parsed from a six-digit colour is the value of its digits and is below 2^24. |
| `Text.Trim` | public/script.js:92 | The result is the slice of the text between its leading and its trailing white space. It is empty exactly when the text is all white space; otherwise it starts and ends with a character that is not white space. |
| `Text.ParseHex` | public/script.js:322 | The result is `NaN` exactly when the text does not start with a hex digit. Otherwise it is the value of the longest run of leading hex digits. |
| `Text.ReplaceAllAbsent` | scheduler.js:81 | A message without the token is left unchanged by the replacement. |
| `Text.ReplaceAllFirst` | scheduler.js:81 | The text before the first occurrence is kept, that occurrence becomes the replacement, and the scan resumes right after it. |
| `Text.ReplaceAllRemovesToken` | scheduler.js:81 | A non-empty replacement that shares no character with the token leaves no occurrence of the token. |

## Left out

- Database and file I/O are not modelled: the queries for the enabled rows, the file reads and writes, `JSON.parse`, and read and write errors. Rows and the store are inputs and state.
- Discord client calls are not modelled. They appear only as effect traces or as inputs: deletions, punishments, sends, role changes, member and channel fetches, role counts and readiness.
- The concurrent, unawaited permission overwrites on every channel after the `Muted` role is created are not modelled.
- The timer behind the Discord client's `timeout` call is not modelled. The mute timers record their delay as Node clamps it, but no clock is kept for them: `Moderation.MuteManager.FireTimer` lets any armed timer fire next.
- Moderation.ModerationEngine.HandleMessage: every message carries a guild id. A direct message has none. In the code, reading `message.guild.id` for an in-scope spam or flood rule then throws, and the catch abandons the remaining rules.
- `new Date(datetime)` parsing and local time are not modelled. The model takes epoch milliseconds, minute, hour, day of month and day of week as inputs. The ISO `createdAt` text is an input too.
- The `waitForClient` polling loop is not modelled. Its outcome is the `readyInTime` input, and a timeout surfaces as the route's catch-all error.
- JWT verification and cookies are not modelled: verification is a predicate input. The guard in `api/actions.js` works like `Dashboard.RequireAuth` but has its own messages and is not modelled separately. Express routing, `api/auth.js` and `server.js` are not part of this model.
- The `/emojis/:guildId` route and the dashboard page's DOM, fetch and rendering code are not part of this model.
- `toLowerCase` is modelled on ASCII letters only. The link rule's regular expression is modelled by its meaning: a scheme followed by a non-space character.
- Text.ParseHex: models `parseInt(_, 16)` on text that starts with its digits. It does not model leading white space, a sign, a `0x` prefix, or the loss of precision beyond 2^53.
- JSON values hold strings, integers, booleans and null. Nested arrays and objects and non-integer numbers are not modelled. Keys that collide with object prototype members (such as `constructor`) are treated as ordinary keys.
- Actions.Toggled: the body's `enabled` value is `Some(value)` or `None` (absent). An explicit `undefined` and its removal on save are both modelled as `None`.
- Collections.SortByKeyDesc: is proved sorted and a permutation of its input. That it keeps equal-key elements in input order (as `Array.prototype.sort` does) is not proved. So `Scheduler.TaskScheduler.AdvanceClock` is proved to fire timers in due-time order, but the order among timers due at the same millisecond (registration order in Node) is not proved.
- Scheduler.TaskScheduler.InitScheduler: an invalid `datetime` is not modelled, because dates arrive already parsed. In the code, `new Date` of an invalid text gives `NaN NaN * * *`, `cron.schedule` throws, and the catch at scheduler.js:175 abandons every later row.
- Actions.ActionStore.Create, Actions.ActionStore.Toggle, Actions.ActionStore.Delete: each handler is modelled as one atomic read-modify-write. In the code each one awaits a file read and a file write, so two concurrent requests can interleave and one update can be lost.
- Scheduler.ExecuteScheduledTask: the moment the count is computed is not modelled (the report computes it before checking the channel). Where the count is computed and nothing is sent, only `countedExpelled` records it.
- Scheduler.ExpelledReport: an empty `taskMessage` sends nothing. In the code, a missing message throws inside the report and is only logged, and the platform refuses an empty one.
- A registration keeps the row as it was when loaded. Later toggles of `enabled` in the store do not reach it, as in the code. The cron month field is never produced by the code and is always `*`.
- Dashboard.SendMessage: the 500 text for an unknown channel uses the platform's `Unknown Channel` message.
