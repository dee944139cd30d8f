/**
 * The message moderation engine and the mute bookkeeping of `moderation.js`.
 *
 * Every inbound message that a person (not a bot) wrote is checked against the
 * enabled moderation rules in the order the store returns them. A rule applies
 * in every channel unless it lists channels. Rate rules ("spam"/"flood") keep a
 * sliding window of timestamps per guild and author; the caps, link and
 * banned-word rules are predicates on the text. The first rule that fires picks
 * the punishment and ends the evaluation.
 *
 * Platform calls (delete, timeout, kick, ban, send, role changes) become
 * `Effect`/`MuteEffect` values listed in the order they are issued; the clock is
 * the `now` parameter, in milliseconds.
 */
module Moderation {
  import opened Common
  import opened Text
  import opened Collections

  /** An inbound message event, as far as the handler reads it. */
  datatype Message = Message(
    guildId: string,
    channelId: string,
    authorId: string,
    authorIsBot: bool,
    content: string)

  /**
   * The parsed `config` of one enabled moderation row. A missing list is the empty
   * list, a missing text is "" (both are falsy in the source), and a numeric field
   * holds what `parseInt` made of it, with `None` for `NaN`.
   */
  datatype ModConfig = ModConfig(
    moderationChannels: seq<string>,
    modType: string,
    messageLimit: Option<int>,
    timeWindow: Option<int>,
    punishment: string,
    duration: Option<int>,
    moderationMessage: string)

  /** The first rule that fired and the reason it gives. */
  datatype Verdict = Verdict(config: ModConfig, reason: string)

  /** The outcome of checking rules: at most one verdict, and the window table afterwards. */
  datatype Evaluation = Evaluation(verdict: Option<Verdict>, cache: map<string, seq<int>>)

  /** The platform calls the handler issues, in order. */
  datatype Effect =
    | DeleteMessage
    | TimeoutMember(milliseconds: int, reason: string)
    | KickMember(reason: string)
    | BanMember(reason: string)
    | SendToChannel(channelId: string, text: string)

  const DefaultMessageLimit: int := 5
  const DefaultTimeWindow: int := 5
  const DefaultDuration: int := 60
  const BannedWords: seq<string> := ["palabra1", "palabra2"]

  const CapsReason: string := "Uso excesivo de mayúsculas"
  const LinkReason: string := "Link no permitido"
  const BannedWordReason: string := "Palabra prohibida detectada"

  /** `parseInt(x) || d`: the parsed number unless it is `NaN` or 0. */
  function OrDefault(v: Option<int>, d: int): int {
    if v.Some? && v.value != 0 then v.value else d
  }

  /** A rule applies in the message's channel: its channel list is empty or names it. */
  predicate InScope(cfg: ModConfig, channelId: string) {
    |cfg.moderationChannels| == 0 || channelId in cfg.moderationChannels
  }

  /** The message-cache key `${guildId}-${authorId}`. */
  function WindowKey(guildId: string, authorId: string): string {
    guildId + "-" + authorId
  }

  // ---------------------------------------------------------------------------
  // the sliding window

  /**
   * Appends `now` to an author's timestamps and keeps those strictly later than
   * `now - timeWindow * 1000`.
   */
  function RecordTimestamp(ts: seq<int>, now: int, timeWindow: int): (r: seq<int>)
    ensures forall t :: t in r <==> (t in ts || t == now) && t > now - timeWindow * 1000
    ensures Subseq(r, ts + [now])
    ensures timeWindow > 0 ==> |r| >= 1 && r[|r| - 1] == now
    ensures timeWindow <= 0 ==> now !in r
  {
    var cutoff := now - timeWindow * 1000;
    var r := Filter(ts + [now], t => t > cutoff);
    FilterSnoc(ts, now, t => t > cutoff);
    FilterMembership(ts + [now], t => t > cutoff);
    FilterSubseq(ts + [now], t => t > cutoff);
    r
  }

  // ---------------------------------------------------------------------------
  // the content predicates

  /**
   * More than 10 UTF-16 code units (JavaScript's `length`), and `A`-`Z` more than
   * 70% of them, in integer form. A character beyond U+FFFF counts twice in the
   * length and is never a capital.
   */
  predicate IsShouting(s: string) {
    Utf16Length(s) > 10 && 10 * CountWhere(s, IsAsciiUpper) > 7 * Utf16Length(s)
  }

  /** The integer test is the source's ratio test `count / length > 0.7`. */
  lemma ShoutingIsRatio(s: string)
    ensures IsShouting(s) <==>
      Utf16Length(s) > 10 && (CountWhere(s, IsAsciiUpper) as real) / (Utf16Length(s) as real) > 0.7
  {
    if Utf16Length(s) > 10 {
      RatioAboveSevenTenths(CountWhere(s, IsAsciiUpper) as real, Utf16Length(s) as real);
    }
  }

  /**
   * Nine capitals and an emoji are 11 code units, so the rule fires although the
   * text has only 10 characters.
   */
  lemma ShoutingCountsCodeUnits()
    ensures IsShouting("AAAAAAAAA\U{1F600}")
  {
    var s := "AAAAAAAAA\U{1F600}";
    assert |s| == 10;
    assert Utf16Length(s[9..]) == 2;
    assert Utf16Length(s) == 11;
    assert CountWhere(s[9..], IsAsciiUpper) == 0;
    assert CountWhere(s, IsAsciiUpper) == 9;
  }

  lemma RatioAboveSevenTenths(c: real, n: real)
    requires n > 0.0
    ensures c / n > 0.7 <==> 10.0 * c > 7.0 * n
  {
    var q := c / n;
    assert q * n == c;
    if q > 0.7 {
      MulMonotonic(0.7, q, n);
    } else {
      MulMonotonic(q, 0.7, n);
    }
  }

  lemma MulMonotonic(a: real, b: real, n: real)
    requires n > 0.0 && a <= b
    ensures a * n <= b * n
    ensures a < b ==> a * n < b * n
  {
  }

  /** `http://` or `https://` starts at `i` and a non-space character follows it. */
  predicate LinkAt(s: string, i: int) {
    (OccursAt(s, "http://", i) && i + 7 < |s| && !IsJsSpace(s[i + 7]))
    || (OccursAt(s, "https://", i) && i + 8 < |s| && !IsJsSpace(s[i + 8]))
  }

  predicate StartsWithLink(s: string) {
    LinkAt(s, 0)
  }

  /** `/(https?:\/\/[^\s]+)/g.test(s)`: a search for the pattern from each position in turn. */
  predicate HasLink(s: string)
    decreases |s|
  {
    StartsWithLink(s) || (|s| > 0 && HasLink(s[1..]))
  }

  /** The search finds a link exactly when one starts at some position. */
  lemma {:induction false} HasLinkIff(s: string)
    ensures HasLink(s) <==> exists i :: LinkAt(s, i)
    decreases |s|
  {
    if |s| > 0 {
      HasLinkIff(s[1..]);
      forall i | 0 <= i < |s| - 1
        ensures LinkAt(s[1..], i) <==> LinkAt(s, i + 1)
      {
        if i + 7 <= |s| - 1 {
          assert s[1..][i..i + 7] == s[i + 1..i + 8];
        }
        if i + 8 <= |s| - 1 {
          assert s[1..][i..i + 8] == s[i + 1..i + 9];
        }
      }
      if exists i :: LinkAt(s, i) {
        var i :| LinkAt(s, i);
        if i > 0 {
          assert LinkAt(s[1..], i - 1);
        }
      }
      if HasLink(s[1..]) {
        var i :| LinkAt(s[1..], i);
        assert LinkAt(s, i + 1);
      }
    }
  }

  /** The lower-cased text contains `palabra1` or `palabra2`. */
  predicate HasBannedWord(s: string) {
    exists w :: w in BannedWords && Contains(Lower(s), w)
  }

  /** The banned-word test ignores the case of ASCII letters. */
  lemma BannedWordIgnoresCase(s: string)
    ensures HasBannedWord(s) <==> HasBannedWord(Lower(s))
  {
    LowerIdempotent(s);
  }

  // ---------------------------------------------------------------------------
  // one rule, then all rules in order

  function RateReason(count: int, timeWindow: int): string {
    "Spam detectado: " + IntToString(count) + " mensajes en " + IntToString(timeWindow) + "s"
  }

  /** The window an in-scope rate rule leaves for the message's author. */
  function RateWindow(cfg: ModConfig, msg: Message, cache: map<string, seq<int>>, now: int): seq<int> {
    var key := WindowKey(msg.guildId, msg.authorId);
    RecordTimestamp(if key in cache then cache[key] else [], now, OrDefault(cfg.timeWindow, DefaultTimeWindow))
  }

  predicate IsRateRule(cfg: ModConfig) {
    cfg.modType == "spam" || cfg.modType == "flood"
  }

  /** Checks one rule against the message: its verdict, if it fires, and the window table after it. */
  function CheckRule(cfg: ModConfig, msg: Message, cache: map<string, seq<int>>, now: int): (e: Evaluation)
    ensures !InScope(cfg, msg.channelId) ==> e == Evaluation(None, cache)
    ensures InScope(cfg, msg.channelId) && IsRateRule(cfg) ==>
      var w := RateWindow(cfg, msg, cache, now);
      && e.cache == cache[WindowKey(msg.guildId, msg.authorId) := w]
      && (e.verdict.Some? <==> |w| > OrDefault(cfg.messageLimit, DefaultMessageLimit))
    ensures !(InScope(cfg, msg.channelId) && IsRateRule(cfg)) ==> e.cache == cache
    ensures InScope(cfg, msg.channelId) && cfg.modType == "caps" ==>
      (e.verdict.Some? <==> IsShouting(msg.content))
    ensures InScope(cfg, msg.channelId) && cfg.modType == "links" ==>
      (e.verdict.Some? <==> HasLink(msg.content))
    ensures InScope(cfg, msg.channelId) && cfg.modType == "badwords" ==>
      (e.verdict.Some? <==> HasBannedWord(msg.content))
    ensures !(IsRateRule(cfg) || cfg.modType in {"caps", "links", "badwords"}) ==> e.verdict.None?
    ensures e.verdict.Some? ==> e.verdict.value.config == cfg
    ensures e.verdict.Some? ==>
      e.verdict.value.reason ==
        (if IsRateRule(cfg) then
           RateReason(|RateWindow(cfg, msg, cache, now)|, OrDefault(cfg.timeWindow, DefaultTimeWindow))
         else if cfg.modType == "caps" then CapsReason
         else if cfg.modType == "links" then LinkReason
         else BannedWordReason)
  {
    if !InScope(cfg, msg.channelId) then Evaluation(None, cache)
    else if IsRateRule(cfg) then
      var key := WindowKey(msg.guildId, msg.authorId);
      var w := RateWindow(cfg, msg, cache, now);
      var limit := OrDefault(cfg.messageLimit, DefaultMessageLimit);
      var reason := RateReason(|w|, OrDefault(cfg.timeWindow, DefaultTimeWindow));
      Evaluation(if |w| > limit then Some(Verdict(cfg, reason)) else None, cache[key := w])
    else if cfg.modType == "caps" then
      Evaluation(if IsShouting(msg.content) then Some(Verdict(cfg, CapsReason)) else None, cache)
    else if cfg.modType == "links" then
      Evaluation(if HasLink(msg.content) then Some(Verdict(cfg, LinkReason)) else None, cache)
    else if cfg.modType == "badwords" then
      Evaluation(if HasBannedWord(msg.content) then Some(Verdict(cfg, BannedWordReason)) else None, cache)
    else Evaluation(None, cache)
  }

  /** Checks the rules in order and stops at the first one that fires. */
  function Evaluate(rules: seq<ModConfig>, msg: Message, cache: map<string, seq<int>>, now: int): Evaluation
    decreases |rules|
  {
    if rules == [] then Evaluation(None, cache)
    else
      var e := CheckRule(rules[0], msg, cache, now);
      if e.verdict.Some? then e else Evaluate(rules[1..], msg, e.cache, now)
  }

  /** Checking `a + b` checks `a`, and checks `b` only when nothing in `a` fired. */
  lemma {:induction false} EvaluateAppend(a: seq<ModConfig>, b: seq<ModConfig>, msg: Message,
                                          cache: map<string, seq<int>>, now: int)
    ensures Evaluate(a + b, msg, cache, now)
         == var ea := Evaluate(a, msg, cache, now);
            if ea.verdict.Some? then ea else Evaluate(b, msg, ea.cache, now)
    decreases |a|
  {
    if a == [] {
      assert a + b == b;
    } else {
      assert (a + b)[0] == a[0];
      assert (a + b)[1..] == a[1..] + b;
      var e := CheckRule(a[0], msg, cache, now);
      if e.verdict.None? {
        EvaluateAppend(a[1..], b, msg, e.cache, now);
      }
    }
  }

  /**
   * First match wins: when no rule of `before` fires and `r` fires, the outcome is
   * `r`'s verdict and the window table as `r` left it, whatever rules follow.
   */
  lemma FirstMatchWins(before: seq<ModConfig>, r: ModConfig, after: seq<ModConfig>, msg: Message,
                       cache: map<string, seq<int>>, now: int)
    requires Evaluate(before, msg, cache, now).verdict.None?
    requires CheckRule(r, msg, Evaluate(before, msg, cache, now).cache, now).verdict.Some?
    ensures Evaluate(before + [r] + after, msg, cache, now)
         == CheckRule(r, msg, Evaluate(before, msg, cache, now).cache, now)
  {
    EvaluateAppend(before + [r], after, msg, cache, now);
    EvaluateAppend(before, [r], msg, cache, now);
  }

  /** A verdict always comes from one of the rules, and one in scope of the channel. */
  lemma {:induction false} VerdictFromInScopeRule(rules: seq<ModConfig>, msg: Message,
                                                  cache: map<string, seq<int>>, now: int)
    ensures var v := Evaluate(rules, msg, cache, now).verdict;
            v.Some? ==> v.value.config in rules && InScope(v.value.config, msg.channelId)
    decreases |rules|
  {
    if rules != [] {
      var e := CheckRule(rules[0], msg, cache, now);
      if e.verdict.None? {
        VerdictFromInScopeRule(rules[1..], msg, e.cache, now);
      }
    }
  }

  /** Evaluation changes no window other than the message author's in the message's guild. */
  lemma {:induction false} EvaluateOnlyTouchesAuthorWindow(rules: seq<ModConfig>, msg: Message,
                                                           cache: map<string, seq<int>>, now: int, k: string)
    requires k != WindowKey(msg.guildId, msg.authorId)
    ensures var c := Evaluate(rules, msg, cache, now).cache;
            (k in c <==> k in cache) && (k in cache ==> c[k] == cache[k])
    decreases |rules|
  {
    if rules != [] {
      var e := CheckRule(rules[0], msg, cache, now);
      if e.verdict.None? {
        EvaluateOnlyTouchesAuthorWindow(rules[1..], msg, e.cache, now, k);
      }
    }
  }

  /** When no rule is a rate rule, evaluation leaves every window as it was. */
  lemma {:induction false} NoRateRuleNoWindowChange(rules: seq<ModConfig>, msg: Message,
                                                    cache: map<string, seq<int>>, now: int)
    requires forall i :: 0 <= i < |rules| ==> !IsRateRule(rules[i])
    ensures Evaluate(rules, msg, cache, now).cache == cache
    decreases |rules|
  {
    if rules != [] {
      var e := CheckRule(rules[0], msg, cache, now);
      if e.verdict.None? {
        NoRateRuleNoWindowChange(rules[1..], msg, e.cache, now);
      }
    }
  }

  /**
   * The threshold of a rate rule with limit `T`: when the author's earlier
   * timestamps all lie inside the window, the message fires exactly when it makes
   * more than `T` messages, so the first `T` messages pass and the next one fires.
   */
  lemma RateRuleThreshold(cfg: ModConfig, msg: Message, cache: map<string, seq<int>>, now: int)
    requires InScope(cfg, msg.channelId) && IsRateRule(cfg)
    requires OrDefault(cfg.timeWindow, DefaultTimeWindow) > 0
    requires var key := WindowKey(msg.guildId, msg.authorId);
             var prior := if key in cache then cache[key] else [];
             forall i :: 0 <= i < |prior| ==> prior[i] > now - OrDefault(cfg.timeWindow, DefaultTimeWindow) * 1000
    ensures var key := WindowKey(msg.guildId, msg.authorId);
            var prior := if key in cache then cache[key] else [];
            CheckRule(cfg, msg, cache, now).verdict.Some?
            <==> |prior| + 1 > OrDefault(cfg.messageLimit, DefaultMessageLimit)
  {
    var key := WindowKey(msg.guildId, msg.authorId);
    var prior := if key in cache then cache[key] else [];
    var cutoff := now - OrDefault(cfg.timeWindow, DefaultTimeWindow) * 1000;
    assert forall i :: 0 <= i < |prior + [now]| ==> (prior + [now])[i] > cutoff by {
      forall i | 0 <= i < |prior + [now]| ensures (prior + [now])[i] > cutoff {
        if i < |prior| {
          assert (prior + [now])[i] == prior[i];
        } else {
          assert (prior + [now])[i] == now;
          assert OrDefault(cfg.timeWindow, DefaultTimeWindow) * 1000 > 0;
        }
      }
    }
    FilterAll(prior + [now], t => t > cutoff);
  }

  // ---------------------------------------------------------------------------
  // punishment

  /** How the source renders `${message.author}`: a user mention. */
  function Mention(authorId: string): string {
    "<@" + authorId + ">"
  }

  function NoPermissionText(authorId: string): string {
    "No pude aplicar el castigo a " + Mention(authorId) + ". Verifica mis permisos."
  }

  /** `config.punishment || 'timeout'`. */
  function PunishmentOf(cfg: ModConfig): string {
    if cfg.punishment != "" then cfg.punishment else "timeout"
  }

  const PunishmentKinds: set<string> := {"timeout", "kick", "ban", "warn"}

  /**
   * One attempt in the handler's `try`: the punishment call, then its
   * confirmation post if it has one. When the call throws (`actionFails`), or
   * the confirmation post throws (`confirmFails`), the `catch` posts `notice`.
   */
  function Attempt(call: Effect, confirmation: Option<Effect>, actionFails: bool, confirmFails: bool,
                   notice: Effect): seq<Effect>
  {
    if actionFails then [call, notice]
    else match confirmation
      case None => [call]
      case Some(c) => if confirmFails then [call, c, notice] else [call, c]
  }

  /**
   * The platform calls that follow a verdict: delete the message (its failure is
   * only logged), then apply the punishment with its feedback. `actionFails`
   * says the punishment call throws (for a warning, that is the warning post);
   * `confirmFails` says the confirmation post after a timeout, kick or ban
   * throws. Either way the handler then posts a notice asking for a permission
   * check.
   */
  function Enforce(verdict: Option<Verdict>, msg: Message, actionFails: bool, confirmFails: bool)
    : (effects: seq<Effect>)
    ensures verdict.None? ==> effects == []
    ensures verdict.Some? ==> |effects| >= 1 && effects[0] == DeleteMessage
    ensures verdict.Some? && PunishmentOf(verdict.value.config) !in PunishmentKinds ==> effects == [DeleteMessage]
    ensures verdict.Some? && PunishmentOf(verdict.value.config) in PunishmentKinds ==>
      var v := verdict.value;
      var p := PunishmentOf(v.config);
      var who := Mention(msg.authorId);
      var feedback := if v.config.moderationMessage != "" then v.config.moderationMessage else v.reason;
      var duration := OrDefault(v.config.duration, DefaultDuration);
      var notice := SendToChannel(msg.channelId, NoPermissionText(msg.authorId));
      && |effects| >= 2
      && (p == "timeout" ==> effects[1] == TimeoutMember(duration * 1000, v.reason))
      && (p == "kick" ==> effects[1] == KickMember(v.reason))
      && (p == "ban" ==> effects[1] == BanMember(v.reason))
      && (p == "warn" ==> effects[1] == SendToChannel(msg.channelId, "⚠️ " + who + " Advertencia: " + feedback))
      && (actionFails ==> effects == [DeleteMessage, effects[1], notice])
      && (!actionFails && p == "warn" ==> |effects| == 2)
      && (!actionFails && p != "warn" ==>
            && |effects| == (if confirmFails then 4 else 3)
            && (p == "timeout" ==> effects[2] == SendToChannel(msg.channelId,
                  who + " has sido silenciado por " + IntToString(duration) + "s. Razón: " + feedback))
            && (p == "kick" ==> effects[2] == SendToChannel(msg.channelId, who + " ha sido expulsado. Razón: " + feedback))
            && (p == "ban" ==> effects[2] == SendToChannel(msg.channelId, who + " ha sido baneado. Razón: " + feedback))
            && (confirmFails ==> effects[3] == notice))
      && (effects[|effects| - 1] == notice <==> actionFails || (confirmFails && p != "warn"))
  {
    if verdict.None? then []
    else
      var cfg := verdict.value.config;
      var reason := verdict.value.reason;
      var punishment := PunishmentOf(cfg);
      var duration := OrDefault(cfg.duration, DefaultDuration);
      var feedback := if cfg.moderationMessage != "" then cfg.moderationMessage else reason;
      var who := Mention(msg.authorId);
      var notice := SendToChannel(msg.channelId, NoPermissionText(msg.authorId));
      assert NoPermissionText(msg.authorId)[0] == 'N';
      if punishment == "timeout" then
        var text := who + " has sido silenciado por " + IntToString(duration) + "s. Razón: " + feedback;
        assert text[0] == '<';
        [DeleteMessage] + Attempt(TimeoutMember(duration * 1000, reason), Some(SendToChannel(msg.channelId, text)),
                                  actionFails, confirmFails, notice)
      else if punishment == "kick" then
        var text := who + " ha sido expulsado. Razón: " + feedback;
        assert text[0] == '<';
        [DeleteMessage] + Attempt(KickMember(reason), Some(SendToChannel(msg.channelId, text)),
                                  actionFails, confirmFails, notice)
      else if punishment == "ban" then
        var text := who + " ha sido baneado. Razón: " + feedback;
        assert text[0] == '<';
        [DeleteMessage] + Attempt(BanMember(reason), Some(SendToChannel(msg.channelId, text)),
                                  actionFails, confirmFails, notice)
      else if punishment == "warn" then
        var text := "⚠️ " + who + " Advertencia: " + feedback;
        assert text[0] == '⚠';
        [DeleteMessage] + Attempt(SendToChannel(msg.channelId, text), None, actionFails, confirmFails, notice)
      else [DeleteMessage]
  }

  /** The moderation engine: the per-author message windows (`client.messageCache`). */
  class ModerationEngine {
    var messageCache: map<string, seq<int>>

    constructor ()
      ensures messageCache == map[]
    {
      messageCache := map[];
    }

    /**
     * The `messageCreate` handler. `rows` are the configs of the enabled moderation
     * rows in store order; `now` is the clock in milliseconds.
     */
    method HandleMessage(msg: Message, rows: seq<ModConfig>, now: int, actionFails: bool, confirmFails: bool)
      returns (effects: seq<Effect>)
      modifies this
      ensures msg.authorIsBot ==> effects == [] && messageCache == old(messageCache)
      ensures !msg.authorIsBot ==>
        var e := Evaluate(rows, msg, old(messageCache), now);
        messageCache == e.cache && effects == Enforce(e.verdict, msg, actionFails, confirmFails)
    {
      effects := [];
      if msg.authorIsBot {
        return;
      }
      var i := 0;
      while i < |rows|
        invariant 0 <= i <= |rows|
        invariant effects == []
        invariant Evaluate(rows, msg, old(messageCache), now) == Evaluate(rows[i..], msg, messageCache, now)
      {
        assert rows[i..][1..] == rows[i + 1..];
        var shouldModerate, reason := ApplyRule(rows[i], msg, now);
        if shouldModerate {
          effects := Enforce(Some(Verdict(rows[i], reason)), msg, actionFails, confirmFails);
          return;
        }
        i := i + 1;
      }
    }

    /**
     * One pass of the handler's loop body: the scope check, then the test of the
     * rule's kind, updating the author's window for a rate rule.
     */
    method ApplyRule(config: ModConfig, msg: Message, now: int) returns (shouldModerate: bool, reason: string)
      modifies this
      ensures CheckRule(config, msg, old(messageCache), now)
           == Evaluation(if shouldModerate then Some(Verdict(config, reason)) else None, messageCache)
    {
      shouldModerate, reason := false, "";
      if !InScope(config, msg.channelId) {
        return;
      }
      var modType := config.modType;
      if modType == "spam" || modType == "flood" {
        var messageLimit := OrDefault(config.messageLimit, DefaultMessageLimit);
        var timeWindow := OrDefault(config.timeWindow, DefaultTimeWindow);
        var key := WindowKey(msg.guildId, msg.authorId);
        if key !in messageCache {
          messageCache := messageCache[key := []];
        }
        var userMessages := messageCache[key] + [now];
        var cutoff := now - timeWindow * 1000;
        var recentMessages := Filter(userMessages, t => t > cutoff);
        assert recentMessages == RateWindow(config, msg, old(messageCache), now);
        messageCache := messageCache[key := recentMessages];
        if |recentMessages| > messageLimit {
          shouldModerate := true;
          reason := RateReason(|recentMessages|, timeWindow);
        }
        assert CheckRule(config, msg, old(messageCache), now)
            == Evaluation(if shouldModerate then Some(Verdict(config, reason)) else None, messageCache);
      }
      if modType == "caps" {
        if IsShouting(msg.content) {
          shouldModerate := true;
          reason := CapsReason;
        }
      }
      if modType == "links" {
        if HasLink(msg.content) {
          shouldModerate := true;
          reason := LinkReason;
        }
      }
      if modType == "badwords" {
        if HasBannedWord(msg.content) {
          shouldModerate := true;
          reason := BannedWordReason;
        }
      }
    }
  }

  // ---------------------------------------------------------------------------
  // mute bookkeeping

  /** An armed auto-unmute timer: it fires `delay` milliseconds (as Node clamps it) after it was set. */
  datatype MuteTimer = MuteTimer(handle: nat, guildId: string, userId: string, delay: int)

  datatype MuteEffect =
    | CreateMutedRole(guildId: string)
    | AddMutedRole(guildId: string, userId: string)
    | RemoveMutedRole(guildId: string, userId: string)

  datatype MuteError = ServerNotFound | UserNotFound | PlatformError
  datatype MuteResult = MuteOk | MuteFailed(error: MuteError)

  /**
   * What the platform answers during one call: whether the guild and the member
   * are found, whether a role named `Muted` exists, whether the member holds it,
   * and whether each role call throws: `roles.create`, `roles.add`,
   * `roles.remove`.
   */
  datatype PlatformView = PlatformView(
    guildFound: bool,
    memberFound: bool,
    mutedRoleExists: bool,
    memberHasMutedRole: bool,
    createFails: bool,
    addFails: bool,
    removeFails: bool)

  /** The filter of `clearTimeout(handle)`: the timers with another handle. */
  function OtherHandle(handle: nat): MuteTimer -> bool {
    (t: MuteTimer) => t.handle != handle
  }

  /** `clearTimeout(handle)`: the pending timers without the one with that handle. */
  function ClearTimer(pending: seq<MuteTimer>, handle: nat): (r: seq<MuteTimer>)
    ensures forall t :: t in r <==> t in pending && t.handle != handle
    ensures Subseq(r, pending)
  {
    FilterMembership(pending, OtherHandle(handle));
    FilterSubseq(pending, OtherHandle(handle));
    Filter(pending, OtherHandle(handle))
  }

  /** No two timers share a handle. */
  predicate DistinctHandles(ts: seq<MuteTimer>) {
    forall i, j :: 0 <= i < j < |ts| ==> ts[i].handle != ts[j].handle
  }

  /** Some timer has the handle. */
  predicate HasHandle(ts: seq<MuteTimer>, handle: nat) {
    exists i :: 0 <= i < |ts| && ts[i].handle == handle
  }

  /**
   * With distinct handles, clearing a handle removes exactly one timer when one
   * has it and nothing otherwise, and the handles stay distinct.
   */
  lemma {:induction false} ClearTimerRemovesOne(pending: seq<MuteTimer>, handle: nat)
    requires DistinctHandles(pending)
    ensures DistinctHandles(ClearTimer(pending, handle))
    ensures HasHandle(pending, handle) ==> |ClearTimer(pending, handle)| == |pending| - 1
    ensures !HasHandle(pending, handle) ==> ClearTimer(pending, handle) == pending
    decreases |pending|
  {
    if pending != [] {
      var rest := pending[1..];
      DistinctTail(pending);
      ClearTimerRemovesOne(rest, handle);
      ClearTimerHead(pending, handle);
      HasHandleTail(pending, handle);
      if pending[0].handle != handle {
        DistinctCons(pending, ClearTimer(rest, handle));
      }
    }
  }

  lemma ClearTimerHead(pending: seq<MuteTimer>, handle: nat)
    requires pending != []
    ensures ClearTimer(pending, handle)
         == (if pending[0].handle == handle then [] else [pending[0]]) + ClearTimer(pending[1..], handle)
  {
  }

  lemma DistinctTail(ts: seq<MuteTimer>)
    requires ts != [] && DistinctHandles(ts)
    ensures DistinctHandles(ts[1..])
    ensures forall i :: 0 <= i < |ts| - 1 ==> ts[1..][i].handle != ts[0].handle
  {
    forall i, j | 0 <= i < j < |ts| - 1 ensures ts[1..][i].handle != ts[1..][j].handle {
      assert ts[1..][i] == ts[i + 1] && ts[1..][j] == ts[j + 1];
    }
    forall i | 0 <= i < |ts| - 1 ensures ts[1..][i].handle != ts[0].handle {
      assert ts[1..][i] == ts[i + 1];
    }
  }

  lemma HasHandleTail(ts: seq<MuteTimer>, handle: nat)
    requires ts != []
    ensures HasHandle(ts, handle) <==> ts[0].handle == handle || HasHandle(ts[1..], handle)
  {
    if HasHandle(ts, handle) && ts[0].handle != handle {
      var i :| 0 <= i < |ts| && ts[i].handle == handle;
      assert ts[1..][i - 1] == ts[i];
    }
    if HasHandle(ts[1..], handle) {
      var i :| 0 <= i < |ts| - 1 && ts[1..][i].handle == handle;
      assert ts[i + 1] == ts[1..][i];
    }
  }

  /** The head of a distinct list in front of distinct timers taken from its tail. */
  lemma DistinctCons(ts: seq<MuteTimer>, r: seq<MuteTimer>)
    requires ts != [] && DistinctHandles(ts) && DistinctHandles(r)
    requires forall t :: t in r ==> t in ts[1..]
    ensures DistinctHandles([ts[0]] + r)
  {
    DistinctTail(ts);
    var c := [ts[0]] + r;
    forall k | 0 <= k < |r| ensures r[k].handle != ts[0].handle {
      assert r[k] in ts[1..];
    }
    forall i, j | 0 <= i < j < |c| ensures c[i].handle != c[j].handle {
      assert c[j] == r[j - 1];
      if i > 0 {
        assert c[i] == r[i - 1];
      }
    }
  }

  /** Dropping one timer keeps the handles distinct. */
  lemma RemoveAtDistinct(ts: seq<MuteTimer>, i: nat)
    requires DistinctHandles(ts) && i < |ts|
    ensures DistinctHandles(ts[..i] + ts[i + 1..])
  {
    var r := ts[..i] + ts[i + 1..];
    forall a, b | 0 <= a < b < |r| ensures r[a].handle != r[b].handle {
      var a' := if a < i then a else a + 1;
      var b' := if b < i then b else b + 1;
      assert r[a] == ts[a'] && r[b] == ts[b'];
    }
  }

  /** The `muteTimeouts` table and the timers it points to. */
  class MuteManager {
    /** `guildId-userId` to the handle of the timer set by the latest mute. */
    var muteTimeouts: map<string, nat>
    /** Timers set and not yet fired or cleared, in the order they were set. */
    var pending: seq<MuteTimer>
    /** The handle the next timer gets. */
    var nextHandle: nat

    ghost predicate Valid()
      reads this
    {
      && (forall t :: t in pending ==> t.handle < nextHandle)
      && (forall k :: k in muteTimeouts ==> muteTimeouts[k] < nextHandle)
      && DistinctHandles(pending)
    }

    constructor ()
      ensures Valid()
      ensures muteTimeouts == map[] && pending == [] && nextHandle == 0
    {
      muteTimeouts := map[];
      pending := [];
      nextHandle := 0;
    }

    /**
     * `muteUser`: gives the member the `Muted` role (creating it first if the guild
     * has none) and arms a timer of `duration` seconds, recorded under the
     * member's key. A timer armed by an earlier mute stays armed.
     */
    method MuteUser(guildId: string, userId: string, duration: int, view: PlatformView)
      returns (result: MuteResult, effects: seq<MuteEffect>)
      requires Valid()
      modifies this
      ensures Valid()
      ensures !view.guildFound ==>
        result == MuteFailed(ServerNotFound) && effects == [] && unchanged(this)
      ensures view.guildFound && !view.memberFound ==>
        result == MuteFailed(UserNotFound) && effects == [] && unchanged(this)
      ensures view.guildFound && view.memberFound && !view.mutedRoleExists && view.createFails ==>
        result == MuteFailed(PlatformError) && effects == [CreateMutedRole(guildId)] && unchanged(this)
      ensures view.guildFound && view.memberFound && (view.mutedRoleExists || !view.createFails) && view.addFails ==>
        && result == MuteFailed(PlatformError) && unchanged(this)
        && effects == (if view.mutedRoleExists then [] else [CreateMutedRole(guildId)]) + [AddMutedRole(guildId, userId)]
      ensures view.guildFound && view.memberFound && (view.mutedRoleExists || !view.createFails) && !view.addFails ==>
        && result == MuteOk
        && effects == (if view.mutedRoleExists then [] else [CreateMutedRole(guildId)]) + [AddMutedRole(guildId, userId)]
        && muteTimeouts == old(muteTimeouts)[WindowKey(guildId, userId) := old(nextHandle)]
        && pending == old(pending) + [MuteTimer(old(nextHandle), guildId, userId, TimerDelay(duration * 1000))]
        && nextHandle == old(nextHandle) + 1
    {
      if !view.guildFound {
        return MuteFailed(ServerNotFound), [];
      }
      if !view.memberFound {
        return MuteFailed(UserNotFound), [];
      }
      effects := [];
      if !view.mutedRoleExists {
        effects := effects + [CreateMutedRole(guildId)];
        if view.createFails {
          return MuteFailed(PlatformError), effects;
        }
      }
      effects := effects + [AddMutedRole(guildId, userId)];
      if view.addFails {
        return MuteFailed(PlatformError), effects;
      }
      var handle := nextHandle;
      nextHandle := nextHandle + 1;
      pending := pending + [MuteTimer(handle, guildId, userId, TimerDelay(duration * 1000))];
      muteTimeouts := muteTimeouts[WindowKey(guildId, userId) := handle];
      result := MuteOk;
    }

    /**
     * `unmuteUser`: removes the `Muted` role if the member holds it, then clears
     * the timer recorded under the member's key and deletes the key.
     */
    method UnmuteUser(guildId: string, userId: string, view: PlatformView)
      returns (result: MuteResult, effects: seq<MuteEffect>)
      requires Valid()
      modifies this
      ensures Valid()
      ensures !view.guildFound ==>
        result == MuteFailed(ServerNotFound) && effects == [] && unchanged(this)
      ensures view.guildFound && !view.memberFound ==>
        result == MuteFailed(UserNotFound) && effects == [] && unchanged(this)
      ensures view.guildFound && view.memberFound ==>
        effects == (if view.mutedRoleExists && view.memberHasMutedRole then [RemoveMutedRole(guildId, userId)] else [])
      ensures view.guildFound && view.memberFound && view.mutedRoleExists && view.memberHasMutedRole && view.removeFails ==>
        result == MuteFailed(PlatformError) && unchanged(this)
      ensures view.guildFound && view.memberFound && !(view.mutedRoleExists && view.memberHasMutedRole && view.removeFails) ==>
        var key := WindowKey(guildId, userId);
        && result == MuteOk
        && muteTimeouts == old(muteTimeouts) - {key}
        && nextHandle == old(nextHandle)
        && pending == (if key in old(muteTimeouts) then ClearTimer(old(pending), old(muteTimeouts)[key])
                       else old(pending))
        && (key in old(muteTimeouts) && HasHandle(old(pending), old(muteTimeouts)[key]) ==>
              |pending| == |old(pending)| - 1)
    {
      if !view.guildFound {
        return MuteFailed(ServerNotFound), [];
      }
      if !view.memberFound {
        return MuteFailed(UserNotFound), [];
      }
      effects := [];
      if view.mutedRoleExists && view.memberHasMutedRole {
        effects := [RemoveMutedRole(guildId, userId)];
        if view.removeFails {
          return MuteFailed(PlatformError), effects;
        }
      }
      var key := WindowKey(guildId, userId);
      if key in muteTimeouts {
        ClearTimerRemovesOne(pending, muteTimeouts[key]);
        pending := ClearTimer(pending, muteTimeouts[key]);
        muteTimeouts := muteTimeouts - {key};
      }
      result := MuteOk;
    }

    /**
     * The callback of the pending timer at index `i`: removes the role if the
     * member still holds it (`stillMuted`; a failed fetch counts as not holding
     * it) and then deletes the member's key, whichever timer that key names.
     * There is no clock here on purpose: the caller picks which armed timer fires,
     * so every order in which mutes can expire is covered, whatever their delays.
     */
    method FireTimer(i: nat, stillMuted: bool) returns (effects: seq<MuteEffect>)
      requires Valid()
      requires i < |pending|
      modifies this
      ensures Valid()
      ensures var t := old(pending)[i];
        && effects == (if stillMuted then [RemoveMutedRole(t.guildId, t.userId)] else [])
        && muteTimeouts == old(muteTimeouts) - {WindowKey(t.guildId, t.userId)}
        && pending == old(pending)[..i] + old(pending)[i + 1..]
        && nextHandle == old(nextHandle)
    {
      var t := pending[i];
      RemoveAtDistinct(pending, i);
      effects := if stillMuted then [RemoveMutedRole(t.guildId, t.userId)] else [];
      muteTimeouts := muteTimeouts - {WindowKey(t.guildId, t.userId)};
      pending := pending[..i] + pending[i + 1..];
    }
  }

  /**
   * Muting a member twice and then letting the first timer fire: the first
   * timer removes the role and deletes the key although the second mute's timer
   * is still armed, so a manual unmute afterwards finds no timer to clear.
   */
  method ReMuteScenario() returns (unmuted: MuteResult, calls: seq<MuteEffect>, stillArmed: seq<MuteTimer>)
    ensures unmuted == MuteOk && calls == []
    ensures stillArmed == [MuteTimer(1, "g", "u", 600000)]
  {
    var m := new MuteManager();
    var ok := PlatformView(true, true, true, false, false, false, false);
    var r1, _ := m.MuteUser("g", "u", 60, ok);
    var r2, _ := m.MuteUser("g", "u", 600, ok);
    assert r1 == MuteOk && r2 == MuteOk;
    assert |m.pending| == 2 && m.muteTimeouts[WindowKey("g", "u")] == 1;
    var fx := m.FireTimer(0, true);
    assert fx == [RemoveMutedRole("g", "u")];
    assert WindowKey("g", "u") !in m.muteTimeouts;
    unmuted, calls := m.UnmuteUser("g", "u", PlatformView(true, true, true, false, false, false, false));
    stillArmed := m.pending;
  }

  /** A second manual unmute issues no platform call and still succeeds. */
  method UnmuteTwiceScenario() returns (first: seq<MuteEffect>, second: MuteResult, secondCalls: seq<MuteEffect>)
    ensures first == [RemoveMutedRole("g", "u")]
    ensures second == MuteOk && secondCalls == []
  {
    var m := new MuteManager();
    var r, _ := m.MuteUser("g", "u", 60, PlatformView(true, true, true, false, false, false, false));
    var r1;
    r1, first := m.UnmuteUser("g", "u", PlatformView(true, true, true, true, false, false, false));
    assert r1 == MuteOk && m.pending == [];
    second, secondCalls := m.UnmuteUser("g", "u", PlatformView(true, true, true, false, false, false, false));
    assert m.muteTimeouts == map[];
  }
}
