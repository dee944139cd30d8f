/**
 * The scheduled-task dispatcher of `scheduler.js`.
 *
 * At start-up and on every reload the dispatcher reads the enabled scheduled
 * rows and registers each one either as a one-shot timer (frequency `una-vez`
 * with a date) or as a recurring cron job (daily, weekly, monthly). Nothing
 * registered earlier is cancelled. When a registration fires, the task is
 * executed: unless the client is not ready or the task is disabled, a message is
 * sent, with every `{{EXPULSADOS}}` replaced by the expelled-student count of
 * the moment.
 *
 * Timers and cron jobs are a list of registrations with a virtual clock; the
 * platform is a snapshot of what the client would answer.
 */
module Scheduler {
  import opened Common
  import opened Text
  import opened Collections

  /** What `new Date(datetime)` yields: epoch milliseconds and local-time fields. */
  datatype DateFields = DateFields(epochMillis: int, minute: nat, hour: nat, dayOfMonth: nat, dayOfWeek: nat)

  /**
   * The parsed `config` of a scheduled row. A missing or empty text is "";
   * a missing or empty `datetime` is `None`.
   */
  datatype TaskConfig = TaskConfig(
    frequency: string,
    datetime: Option<DateFields>,
    taskType: string,
    taskChannel: string,
    taskMessage: string,
    guildId: string)

  /** A scheduled action as `initScheduler` builds it from a row. */
  datatype TaskAction = TaskAction(id: string, name: string, enabled: bool, config: TaskConfig)

  // ---------------------------------------------------------------------------
  // cron expressions

  datatype CronField = Every | At(value: nat)

  /** A five-field cron schedule: minute, hour, day of month, month, day of week. */
  datatype Cron = Cron(minute: CronField, hour: CronField, dayOfMonth: CronField, month: CronField, dayOfWeek: CronField)

  function FieldText(f: CronField): (r: string)
    ensures ' ' !in r && |r| >= 1
  {
    match f
    case Every => "*"
    case At(v) => NatToString(v)
  }

  /** The text of a schedule: its five fields separated by single spaces. */
  function CronText(c: Cron): string {
    FieldText(c.minute) + " " + FieldText(c.hour) + " " + FieldText(c.dayOfMonth) + " "
    + FieldText(c.month) + " " + FieldText(c.dayOfWeek)
  }

  /** `s.split(sep)` for a one-character separator. */
  function Split(s: string, sep: char): (r: seq<string>)
    ensures |r| >= 1
    decreases |s|
  {
    if s == [] then [""]
    else
      var rest := Split(s[1..], sep);
      if s[0] == sep then [""] + rest else [[s[0]] + rest[0]] + rest[1..]
  }

  lemma {:induction false} SplitNoSeparator(a: string, sep: char)
    requires sep !in a
    ensures Split(a, sep) == [a]
    decreases |a|
  {
    if a != [] {
      SplitNoSeparator(a[1..], sep);
      assert [a[0]] + a[1..] == a;
    }
  }

  lemma {:induction false} SplitAtFirst(a: string, b: string, sep: char)
    requires sep !in a
    ensures Split(a + [sep] + b, sep) == [a] + Split(b, sep)
    decreases |a|
  {
    var s := a + [sep] + b;
    if a == [] {
      assert s[0] == sep && s[1..] == b;
    } else {
      assert s[0] == a[0] && s[1..] == a[1..] + [sep] + b;
      SplitAtFirst(a[1..], b, sep);
      assert [a[0]] + a[1..] == a;
    }
  }

  function ParseField(t: string): Option<CronField> {
    if t == "*" then Some(Every)
    else if t != "" && AllDigits(t, 10) then Some(At(RadixValue(t, 10)))
    else None
  }

  /** Reads a five-field schedule back from its text; `None` for anything else. */
  function ParseCron(s: string): Option<Cron> {
    var parts := Split(s, ' ');
    if |parts| != 5 then None
    else
      match (ParseField(parts[0]), ParseField(parts[1]), ParseField(parts[2]), ParseField(parts[3]), ParseField(parts[4]))
      case (Some(minute), Some(hour), Some(dayOfMonth), Some(month), Some(dayOfWeek)) =>
        Some(Cron(minute, hour, dayOfMonth, month, dayOfWeek))
      case _ => None
  }

  lemma ParseFieldText(f: CronField)
    ensures ParseField(FieldText(f)) == Some(f)
  {
    if f.At? {
      var t := NatToString(f.value);
      RadixRoundTrip(f.value, 10);
      assert t[0] != '*';
    }
  }

  /** Five space-free words joined by single spaces split back into the five words. */
  lemma SplitFive(a: string, b: string, d: string, m: string, w: string)
    requires ' ' !in a && ' ' !in b && ' ' !in d && ' ' !in m && ' ' !in w
    ensures Split(a + " " + b + " " + d + " " + m + " " + w, ' ') == [a, b, d, m, w]
  {
    assert a + " " + b + " " + d + " " + m + " " + w
        == a + [' '] + (b + [' '] + (d + [' '] + (m + [' '] + w)));
    SplitAtFirst(a, b + [' '] + (d + [' '] + (m + [' '] + w)), ' ');
    SplitAtFirst(b, d + [' '] + (m + [' '] + w), ' ');
    SplitAtFirst(d, m + [' '] + w, ' ');
    SplitAtFirst(m, w, ' ');
    SplitNoSeparator(w, ' ');
  }

  /** A schedule's text reads back as the same schedule. */
  lemma CronRoundTrip(c: Cron)
    ensures ParseCron(CronText(c)) == Some(c)
  {
    SplitFive(FieldText(c.minute), FieldText(c.hour), FieldText(c.dayOfMonth),
              FieldText(c.month), FieldText(c.dayOfWeek));
    ParseFieldText(c.minute);
    ParseFieldText(c.hour);
    ParseFieldText(c.dayOfMonth);
    ParseFieldText(c.month);
    ParseFieldText(c.dayOfWeek);
  }

  function Daily(minute: nat, hour: nat): Cron {
    Cron(At(minute), At(hour), Every, Every, Every)
  }

  function Weekly(minute: nat, hour: nat, dayOfWeek: nat): Cron {
    Cron(At(minute), At(hour), Every, Every, At(dayOfWeek))
  }

  function Monthly(minute: nat, hour: nat, dayOfMonth: nat): Cron {
    Cron(At(minute), At(hour), At(dayOfMonth), Every, Every)
  }

  /**
   * `parseCronExpression`: the cron text for a frequency, taking minute, hour and
   * day from the date when there is one; `None` (the source's `null`) for
   * `una-vez` and for any unknown frequency.
   */
  function CronExpression(frequency: string, datetime: Option<DateFields>): Option<string> {
    if frequency == "una-vez" then None
    else if frequency == "diaria" then
      if datetime.Some? then
        Some(NatToString(datetime.value.minute) + " " + NatToString(datetime.value.hour) + " * * *")
      else Some("0 9 * * *")
    else if frequency == "semanal" then
      if datetime.Some? then
        Some(NatToString(datetime.value.minute) + " " + NatToString(datetime.value.hour) + " * * "
             + NatToString(datetime.value.dayOfWeek))
      else Some("0 9 * * 1")
    else if frequency == "mensual" then
      if datetime.Some? then
        Some(NatToString(datetime.value.minute) + " " + NatToString(datetime.value.hour) + " "
             + NatToString(datetime.value.dayOfMonth) + " * *")
      else Some("0 9 1 * *")
    else None
  }

  /**
   * What each frequency is meant to schedule: daily at the date's minute and hour
   * (09:00 by default), weekly also on its day of the week (Monday by default),
   * monthly on its day of the month (the 1st by default); nothing otherwise.
   */
  function IntendedSchedule(frequency: string, datetime: Option<DateFields>): Option<Cron> {
    if frequency == "diaria" then
      Some(if datetime.Some? then Daily(datetime.value.minute, datetime.value.hour) else Daily(0, 9))
    else if frequency == "semanal" then
      Some(if datetime.Some? then Weekly(datetime.value.minute, datetime.value.hour, datetime.value.dayOfWeek)
           else Weekly(0, 9, 1))
    else if frequency == "mensual" then
      Some(if datetime.Some? then Monthly(datetime.value.minute, datetime.value.hour, datetime.value.dayOfMonth)
           else Monthly(0, 9, 1))
    else None
  }

  lemma SmallNumerals()
    ensures NatToString(0) == "0" && NatToString(1) == "1" && NatToString(9) == "9"
  {
  }

  /** Where a schedule is meant, the expression is exactly its text. */
  lemma ExpressionIsText(frequency: string, datetime: Option<DateFields>)
    requires IntendedSchedule(frequency, datetime).Some?
    ensures CronExpression(frequency, datetime) == Some(CronText(IntendedSchedule(frequency, datetime).value))
  {
    SmallNumerals();
    if frequency == "diaria" {
      DailyText(datetime);
    } else if frequency == "semanal" {
      WeeklyText(datetime);
    } else {
      MonthlyText(datetime);
    }
  }

  lemma DailyText(datetime: Option<DateFields>)
    requires NatToString(0) == "0" && NatToString(9) == "9"
    ensures CronExpression("diaria", datetime) == Some(CronText(IntendedSchedule("diaria", datetime).value))
  {
    if datetime.Some? {
      DailyCronText(datetime.value.minute, datetime.value.hour);
    } else {
      DailyCronText(0, 9);
      assert "0" + " " + "9" + " * * *" == "0 9 * * *";
    }
  }

  lemma DailyCronText(minute: nat, hour: nat)
    ensures CronText(Daily(minute, hour)) == NatToString(minute) + " " + NatToString(hour) + " * * *"
  {
    var m, h := NatToString(minute), NatToString(hour);
    assert CronText(Daily(minute, hour)) == m + " " + h + " " + "*" + " " + "*" + " " + "*";
  }

  lemma WeeklyText(datetime: Option<DateFields>)
    requires NatToString(0) == "0" && NatToString(1) == "1" && NatToString(9) == "9"
    ensures CronExpression("semanal", datetime) == Some(CronText(IntendedSchedule("semanal", datetime).value))
  {
    if datetime.Some? {
      WeeklyCronText(datetime.value.minute, datetime.value.hour, datetime.value.dayOfWeek);
    } else {
      WeeklyCronText(0, 9, 1);
      assert "0" + " " + "9" + " * * " + "1" == "0 9 * * 1";
    }
  }

  lemma WeeklyCronText(minute: nat, hour: nat, dayOfWeek: nat)
    ensures CronText(Weekly(minute, hour, dayOfWeek))
         == NatToString(minute) + " " + NatToString(hour) + " * * " + NatToString(dayOfWeek)
  {
    var m, h, d := NatToString(minute), NatToString(hour), NatToString(dayOfWeek);
    assert CronText(Weekly(minute, hour, dayOfWeek)) == m + " " + h + " " + "*" + " " + "*" + " " + d;
  }

  lemma MonthlyText(datetime: Option<DateFields>)
    requires NatToString(0) == "0" && NatToString(1) == "1" && NatToString(9) == "9"
    ensures CronExpression("mensual", datetime) == Some(CronText(IntendedSchedule("mensual", datetime).value))
  {
    if datetime.Some? {
      MonthlyCronText(datetime.value.minute, datetime.value.hour, datetime.value.dayOfMonth);
    } else {
      MonthlyCronText(0, 9, 1);
      assert "0" + " " + "9" + " " + "1" + " * *" == "0 9 1 * *";
    }
  }

  lemma MonthlyCronText(minute: nat, hour: nat, dayOfMonth: nat)
    ensures CronText(Monthly(minute, hour, dayOfMonth))
         == NatToString(minute) + " " + NatToString(hour) + " " + NatToString(dayOfMonth) + " * *"
  {
    var m, h, d := NatToString(minute), NatToString(hour), NatToString(dayOfMonth);
    assert CronText(Monthly(minute, hour, dayOfMonth)) == m + " " + h + " " + d + " " + "*" + " " + "*";
  }

  /**
   * The expression `parseCronExpression` builds reads back as the intended
   * schedule, and there is one exactly when a schedule is meant.
   */
  lemma CronExpressionSchedule(frequency: string, datetime: Option<DateFields>)
    ensures CronExpression(frequency, datetime).Some? <==> IntendedSchedule(frequency, datetime).Some?
    ensures CronExpression(frequency, datetime).Some? ==>
      ParseCron(CronExpression(frequency, datetime).value) == IntendedSchedule(frequency, datetime)
  {
    var c := IntendedSchedule(frequency, datetime);
    if c.Some? {
      ExpressionIsText(frequency, datetime);
      CronRoundTrip(c.value);
    }
  }

  /** A wall-clock minute as a cron daemon sees it. */
  datatype WallClock = WallClock(minute: nat, hour: nat, dayOfMonth: nat, month: nat, dayOfWeek: nat)

  predicate FieldMatches(f: CronField, v: nat) {
    f.Every? || f.value == v
  }

  predicate CronMatches(c: Cron, t: WallClock) {
    && FieldMatches(c.minute, t.minute) && FieldMatches(c.hour, t.hour)
    && FieldMatches(c.dayOfMonth, t.dayOfMonth) && FieldMatches(c.month, t.month)
    && FieldMatches(c.dayOfWeek, t.dayOfWeek)
  }

  // ---------------------------------------------------------------------------
  // registrations

  /** A live timer (`setTimeout`) or cron job (`cron.schedule`) for an action. */
  datatype Registration =
    | OneShot(action: TaskAction, fireAt: int)
    | Recurring(action: TaskAction, expression: string)

  /**
   * `scheduleOneTimeTask`'s decision: a timer when the target lies strictly in
   * the future, otherwise nothing (the source only logs that the time has passed).
   * The delay goes to `setTimeout` unchecked, so a target more than `TimeoutMax`
   * ms ahead fires 1 ms after registration instead of at the target.
   */
  function OneShotRegistration(action: TaskAction, target: DateFields, now: int): (r: Option<Registration>)
    ensures r.Some? <==> target.epochMillis - now > 0
    ensures r.Some? ==> r.value.OneShot? && r.value.action == action
    ensures r.Some? && target.epochMillis - now <= TimeoutMax ==> r.value.fireAt == target.epochMillis
    ensures r.Some? && target.epochMillis - now > TimeoutMax ==> r.value.fireAt == now + 1
  {
    var delay := target.epochMillis - now;
    if delay > 0 then Some(OneShot(action, now + TimerDelay(delay))) else None
  }

  /** What one iteration of `initScheduler`'s loop registers for a row. */
  function RowRegistration(row: TaskAction, now: int): Option<Registration> {
    var cronExpression := CronExpression(row.config.frequency, row.config.datetime);
    if row.config.frequency == "una-vez" && row.config.datetime.Some? then
      OneShotRegistration(row, row.config.datetime.value, now)
    else if cronExpression.Some? then
      Some(Recurring(row, cronExpression.value))
    else None
  }

  /**
   * Per row, exactly one of: a one-shot timer (`una-vez` with a date in the
   * future), a recurring job (daily, weekly or monthly), or nothing (`una-vez`
   * without a date or with a past date, or an unknown frequency).
   */
  lemma RowRegistrationCases(row: TaskAction, now: int)
    ensures var r := RowRegistration(row, now);
      var f := row.config.frequency;
      && (r.Some? && r.value.OneShot? <==>
            f == "una-vez" && row.config.datetime.Some? && row.config.datetime.value.epochMillis > now)
      && (r.Some? && r.value.Recurring? <==> f in {"diaria", "semanal", "mensual"})
      && (r.Some? ==> r.value.action == row)
  {
    CronExpressionSchedule(row.config.frequency, row.config.datetime);
  }

  /** The registrations one run of `initScheduler` adds, in row order. */
  function Registrations(rows: seq<TaskAction>, now: int): (r: seq<Registration>)
    ensures |r| <= |rows|
    ensures forall i :: 0 <= i < |r| ==> r[i].action in rows
    decreases |rows|
  {
    if rows == [] then []
    else
      var last := rows[|rows| - 1];
      var prefix := Registrations(rows[..|rows| - 1], now);
      assert forall i :: 0 <= i < |prefix| ==> prefix[i].action in rows by {
        forall i | 0 <= i < |prefix| ensures prefix[i].action in rows {
          var k :| 0 <= k < |rows| - 1 && rows[..|rows| - 1][k] == prefix[i].action;
          assert rows[k] == prefix[i].action;
        }
      }
      match RowRegistration(last, now)
      case Some(reg) => prefix + [reg]
      case None => prefix
  }

  /** How many registrations are for the action with id `id`. */
  function CountFor(regs: seq<Registration>, id: string): nat {
    CountWhere(regs, (r: Registration) => r.action.id == id)
  }

  lemma CountForSnoc(regs: seq<Registration>, reg: Registration, id: string)
    ensures CountFor(regs + [reg], id) == CountFor(regs, id) + (if reg.action.id == id then 1 else 0)
  {
    CountWhereAppend(regs, [reg], (r: Registration) => r.action.id == id);
  }

  /** No registration is for an id that no row has. */
  lemma NoRowNoRegistration(rows: seq<TaskAction>, now: int, id: string)
    requires forall i :: 0 <= i < |rows| ==> rows[i].id != id
    ensures CountFor(Registrations(rows, now), id) == 0
  {
    var regs := Registrations(rows, now);
    forall i | 0 <= i < |regs| ensures regs[i].action.id != id {
      var j :| 0 <= j < |rows| && rows[j] == regs[i].action;
    }
  }

  /**
   * With distinct ids, a row that registers something has exactly one
   * registration in one run, and a row that registers nothing has none.
   */
  lemma {:induction false} OneRegistrationPerRow(rows: seq<TaskAction>, now: int, k: nat)
    requires k < |rows|
    requires forall i, j :: 0 <= i < j < |rows| ==> rows[i].id != rows[j].id
    ensures CountFor(Registrations(rows, now), rows[k].id)
         == if RowRegistration(rows[k], now).Some? then 1 else 0
    decreases |rows|
  {
    var id := rows[k].id;
    var n := |rows| - 1;
    var init := rows[..n];
    var last := rows[n];
    var prefix := Registrations(init, now);
    assert forall i :: 0 <= i < n ==> init[i] == rows[i];
    if k == n {
      NoRowNoRegistration(init, now, id);
    } else {
      OneRegistrationPerRow(init, now, k);
    }
    RowRegistrationCases(last, now);
    match RowRegistration(last, now)
    case Some(reg) => CountForSnoc(prefix, reg, id);
    case None =>
  }

  // ---------------------------------------------------------------------------
  // execution

  /**
   * The number of members with role `NSL` minus the number with role
   * `Estudiante Privado Oficial`, as `role.members.size` reports them after a
   * member fetch; `None` for a role the guild does not have.
   */
  datatype GuildRoles = GuildRoles(fetchOk: bool, nslMembers: Option<nat>, estudianteMembers: Option<nat>)

  /** What the client can answer: readiness, channels (id to text-based) and guilds. */
  datatype Platform = Platform(ready: bool, channels: map<string, bool>, guilds: map<string, GuildRoles>)

  datatype Outgoing = Outgoing(channelId: string, text: string)

  /** One execution: whether the expelled count was computed, and what was sent. */
  datatype TaskRun = TaskRun(countedExpelled: bool, sent: Option<Outgoing>)

  const ExpelledToken: string := "{{EXPULSADOS}}"

  /**
   * `calculateExpelledStudents`: the difference of the two role counts, not
   * clamped; 0 when the guild or either role is missing or the fetch fails.
   */
  function CalculateExpelled(guilds: map<string, GuildRoles>, guildId: string): (n: int)
    ensures guildId in guilds && guilds[guildId].fetchOk
            && guilds[guildId].nslMembers.Some? && guilds[guildId].estudianteMembers.Some?
            ==> n == guilds[guildId].nslMembers.value - guilds[guildId].estudianteMembers.value
    ensures !(guildId in guilds && guilds[guildId].fetchOk
              && guilds[guildId].nslMembers.Some? && guilds[guildId].estudianteMembers.Some?)
            ==> n == 0
  {
    if guildId !in guilds then 0
    else
      var g := guilds[guildId];
      if !g.fetchOk then 0
      else if g.nslMembers.None? || g.estudianteMembers.None? then 0
      else g.nslMembers.value - g.estudianteMembers.value
  }

  /** `channels.fetch(id)` followed by `isTextBased()`. */
  predicate IsTextChannel(p: Platform, id: string) {
    id != "" && id in p.channels && p.channels[id]
  }

  /** The decimal text of a count shares no character with the token. */
  lemma CountTextAvoidsToken(n: int)
    ensures |IntToString(n)| > 0
    ensures forall k :: 0 <= k < |IntToString(n)| ==> IntToString(n)[k] !in ExpelledToken
  {
    var t := IntToString(n);
    var digits := NatToString(if n < 0 then -n else n);
    assert forall c :: c in ExpelledToken ==> DigitValue(c) >= 10 && c != '-';
    forall k | 0 <= k < |t| ensures t[k] !in ExpelledToken {
      if n < 0 && k == 0 {
        assert t[k] == '-';
      } else {
        assert t[k] == digits[if n < 0 then k - 1 else k];
      }
    }
  }

  /** No `{{EXPULSADOS}}` is left once the count is filled in. */
  lemma ReportHasNoToken(message: string, n: int)
    ensures !Contains(ReplaceAll(message, ExpelledToken, IntToString(n)), ExpelledToken)
  {
    CountTextAvoidsToken(n);
    ReplaceAllRemovesToken(message, ExpelledToken, IntToString(n));
  }

  /**
   * `executeExpelledStudentsReport`: the count is computed first; the message,
   * with every token replaced, goes to the task's channel when that is a text
   * channel. An empty message is never delivered (the source throws on a missing
   * one and the platform refuses an empty one), so none is sent.
   */
  function ExpelledReport(p: Platform, config: TaskConfig): TaskRun {
    var expelled := CalculateExpelled(p.guilds, config.guildId);
    var text := ReplaceAll(config.taskMessage, ExpelledToken, IntToString(expelled));
    if config.taskMessage != "" && IsTextChannel(p, config.taskChannel) then
      TaskRun(true, Some(Outgoing(config.taskChannel, text)))
    else TaskRun(true, None)
  }

  /** `executeScheduledTask`: whether and what one firing sends. */
  function ExecuteScheduledTask(p: Platform, action: TaskAction): (run: TaskRun)
    ensures !p.ready || !action.enabled ==> run == TaskRun(false, None)
    ensures run.sent.Some? ==>
      (&& p.ready && action.enabled && action.config.taskMessage != ""
       && IsTextChannel(p, action.config.taskChannel)
       && run.sent.value.channelId == action.config.taskChannel)
    ensures p.ready && action.enabled && action.config.taskType != "estudiantes-expulsados" ==>
      (run.sent.Some? <==> action.config.taskChannel != "" && action.config.taskMessage != ""
                           && IsTextChannel(p, action.config.taskChannel))
    ensures run.countedExpelled ==>
      action.config.taskType == "estudiantes-expulsados" || Contains(action.config.taskMessage, ExpelledToken)
    ensures run.sent.Some? && !Contains(action.config.taskMessage, ExpelledToken) ==>
      run.sent.value.text == action.config.taskMessage
    ensures run.sent.Some? && Contains(action.config.taskMessage, ExpelledToken) ==>
      run.countedExpelled
      && run.sent.value.text == ReplaceAll(action.config.taskMessage, ExpelledToken,
                                           IntToString(CalculateExpelled(p.guilds, action.config.guildId)))
    ensures run.sent.Some? ==> !Contains(run.sent.value.text, ExpelledToken)
    ensures p.ready && action.enabled && action.config.taskType == "estudiantes-expulsados" ==>
      && run.countedExpelled
      && (run.sent.Some? <==> action.config.taskMessage != "" && IsTextChannel(p, action.config.taskChannel))
    ensures action.config.taskType != "estudiantes-expulsados" ==>
      (run.countedExpelled <==> run.sent.Some? && Contains(action.config.taskMessage, ExpelledToken))
  {
    ReportHasNoToken(action.config.taskMessage, CalculateExpelled(p.guilds, action.config.guildId));
    if !p.ready then TaskRun(false, None)
    else if !action.enabled then TaskRun(false, None)
    else
      var config := action.config;
      if config.taskType == "estudiantes-expulsados" then
        if Contains(config.taskMessage, ExpelledToken) then ExpelledReport(p, config)
        else
          ReplaceAllAbsent(config.taskMessage, ExpelledToken,
                           IntToString(CalculateExpelled(p.guilds, config.guildId)));
          ExpelledReport(p, config)
      else if config.taskChannel != "" && config.taskMessage != "" then
        if IsTextChannel(p, config.taskChannel) then
          if Contains(config.taskMessage, ExpelledToken) then
            var expelled := CalculateExpelled(p.guilds, config.guildId);
            TaskRun(true, Some(Outgoing(config.taskChannel,
                                        ReplaceAll(config.taskMessage, ExpelledToken, IntToString(expelled)))))
          else
            TaskRun(false, Some(Outgoing(config.taskChannel, config.taskMessage)))
        else TaskRun(false, None)
      else TaskRun(false, None)
  }

  /** The count is a plain difference: more students than members gives a negative number. */
  lemma ExpelledMayBeNegative()
    ensures CalculateExpelled(map["g" := GuildRoles(true, Some(5), Some(9))], "g") == -4
  {
  }

  /** A template with the token and counts 10 and 7 becomes `Expulsados: 3`. */
  lemma ExpelledTemplateExample(p: Platform, action: TaskAction)
    requires p.ready && action.enabled
    requires action.config == TaskConfig("diaria", None, "reporte", "c", "Expulsados: " + ExpelledToken, "g")
    requires p.channels == map["c" := true] && p.guilds == map["g" := GuildRoles(true, Some(10), Some(7))]
    ensures ExecuteScheduledTask(p, action) == TaskRun(true, Some(Outgoing("c", "Expulsados: 3")))
  {
    var m := action.config.taskMessage;
    TemplateHasToken();
    assert CalculateExpelled(p.guilds, "g") == 3;
    assert IntToString(3) == "3";
    ReplaceAllPrefixThenToken("Expulsados: ", "3");
    assert "Expulsados: " + "3" == "Expulsados: 3";
    var run := ExecuteScheduledTask(p, action);
    assert IsTextChannel(p, "c");
    assert run.sent.Some?;
  }

  lemma TemplateHasToken()
    ensures Contains("Expulsados: " + ExpelledToken, ExpelledToken)
  {
    var m := "Expulsados: " + ExpelledToken;
    assert m[12..26] == ExpelledToken;
    assert OccursAt(m, ExpelledToken, 12);
    ContainsAt(m, ExpelledToken);
  }

  /** A token-free text followed by the token: the text is kept and the token replaced. */
  lemma {:induction false} ReplaceAllPrefixThenToken(prefix: string, rep: string)
    requires '{' !in prefix
    ensures ReplaceAll(prefix + ExpelledToken, ExpelledToken, rep) == prefix + rep
    decreases |prefix|
  {
    var s := prefix + ExpelledToken;
    if prefix == [] {
      assert s == ExpelledToken + [];
      ReplaceAllLeading(ExpelledToken, [], rep);
    } else {
      assert s[..|ExpelledToken|] != ExpelledToken by {
        assert s[0] == prefix[0] && ExpelledToken[0] == '{';
      }
      assert s[1..] == prefix[1..] + ExpelledToken;
      ReplaceAllPrefixThenToken(prefix[1..], rep);
      assert [prefix[0]] + prefix[1..] == prefix;
    }
  }

  // ---------------------------------------------------------------------------
  // the dispatcher's state

  /** The actions of the registrations, in order. */
  function ActionsOf(regs: seq<Registration>): (r: seq<TaskAction>)
    ensures |r| == |regs| && forall i :: 0 <= i < |regs| ==> r[i] == regs[i].action
  {
    seq(|regs|, i requires 0 <= i < |regs| => regs[i].action)
  }

  predicate IsDueOneShot(r: Registration, now: int) {
    r.OneShot? && r.fireAt <= now
  }

  /** The sort key that puts earlier one-shot timers first. */
  function EarlierFirst(r: Registration): int {
    if r.OneShot? then -r.fireAt else 0
  }

  /**
   * The one-shot timers due at `now` in the order Node runs them: by due time,
   * and on a tie in the order they were set.
   */
  function FiringOrder(regs: seq<Registration>, now: int): seq<Registration> {
    SortByKeyDesc(Filter(regs, (r: Registration) => IsDueOneShot(r, now)), EarlierFirst)
  }

  /**
   * Each due one-shot timer fires exactly as often as it is registered, nothing
   * else fires, and the firings come in ascending order of due time.
   */
  lemma FiresEachDueOneShotOnce(regs: seq<Registration>, now: int)
    ensures forall r :: multiset(FiringOrder(regs, now))[r] == if IsDueOneShot(r, now) then multiset(regs)[r] else 0
    ensures forall i :: 0 <= i < |FiringOrder(regs, now)| ==> IsDueOneShot(FiringOrder(regs, now)[i], now)
    ensures forall i, j :: 0 <= i < j < |FiringOrder(regs, now)| ==>
      FiringOrder(regs, now)[i].fireAt <= FiringOrder(regs, now)[j].fireAt
  {
    var due := Filter(regs, (r: Registration) => IsDueOneShot(r, now));
    var fired := FiringOrder(regs, now);
    FilterMultiset(regs, (r: Registration) => IsDueOneShot(r, now));
    assert multiset(fired) == multiset(due);
    forall i | 0 <= i < |fired| ensures IsDueOneShot(fired[i], now) {
      assert fired[i] in multiset(fired);
    }
  }

  /**
   * A daily task with a date fires at every wall-clock minute with that minute
   * and hour, and at no other.
   */
  lemma DailyJobMatches(row: TaskAction, now: int, t: WallClock)
    requires row.config.frequency == "diaria" && row.config.datetime.Some?
    ensures var r := RowRegistration(row, now);
      && r.Some? && r.value.Recurring?
      && ParseCron(r.value.expression).Some?
      && (CronMatches(ParseCron(r.value.expression).value, t)
          <==> t.minute == row.config.datetime.value.minute && t.hour == row.config.datetime.value.hour)
  {
    CronExpressionSchedule(row.config.frequency, row.config.datetime);
  }

  /** The live timers and jobs (`setTimeout` handles and `cron.schedule` jobs). */
  class TaskScheduler {
    var registrations: seq<Registration>

    constructor ()
      ensures registrations == []
    {
      registrations := [];
    }

    /** `initScheduler`: registers each enabled row; nothing registered before is cancelled. */
    method InitScheduler(rows: seq<TaskAction>, now: int)
      modifies this
      ensures registrations == old(registrations) + Registrations(rows, now)
    {
      var i := 0;
      while i < |rows|
        invariant 0 <= i <= |rows|
        invariant registrations == old(registrations) + Registrations(rows[..i], now)
      {
        var row := rows[i];
        assert rows[..i + 1][..i] == rows[..i] && rows[..i + 1][i] == row;
        var cronExpression := CronExpression(row.config.frequency, row.config.datetime);
        if row.config.frequency == "una-vez" && row.config.datetime.Some? {
          var delay := row.config.datetime.value.epochMillis - now;
          if delay > 0 {
            registrations := registrations + [OneShot(row, now + TimerDelay(delay))];
          }
        } else if cronExpression.Some? {
          registrations := registrations + [Recurring(row, cronExpression.value)];
        }
        i := i + 1;
      }
      assert rows[..|rows|] == rows;
    }

    /** `reloadScheduledTasks`: runs `initScheduler` again on top of what is registered. */
    method ReloadScheduledTasks(rows: seq<TaskAction>, now: int)
      modifies this
      ensures registrations == old(registrations) + Registrations(rows, now)
    {
      InitScheduler(rows, now);
    }

    /**
     * Advances the virtual clock to `now`: every one-shot timer whose time has come
     * fires once and is gone; recurring jobs stay. The fired actions are returned
     * in firing order, each to be run by `ExecuteScheduledTask`.
     */
    method AdvanceClock(now: int) returns (fired: seq<TaskAction>)
      modifies this
      ensures fired == ActionsOf(FiringOrder(old(registrations), now))
      ensures forall r :: multiset(registrations)[r] == if IsDueOneShot(r, now) then 0 else multiset(old(registrations))[r]
      ensures Subseq(registrations, old(registrations))
    {
      fired := ActionsOf(FiringOrder(registrations, now));
      FilterMultiset(registrations, (r: Registration) => !IsDueOneShot(r, now));
      FilterSubseq(registrations, (r: Registration) => !IsDueOneShot(r, now));
      registrations := Filter(registrations, (r: Registration) => !IsDueOneShot(r, now));
    }
  }

  /**
   * A reload duplicates: a daily task loaded at start-up and again on reload has
   * two live jobs, and both fire at its minute.
   */
  method ReloadScenario(row: TaskAction, now: int) returns (live: seq<Registration>)
    requires row.config.frequency == "diaria"
    ensures |live| == 2 && live[0] == live[1]
    ensures live[0].Recurring? && live[0].action == row
  {
    var s := new TaskScheduler();
    s.InitScheduler([row], now);
    s.ReloadScheduledTasks([row], now);
    RowRegistrationCases(row, now);
    assert Registrations([row], now) == [RowRegistration(row, now).value];
    live := s.registrations;
  }
}
