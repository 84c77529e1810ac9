/**
 * The sleep service (`SleepService`): a bedtime and a wake-up time given as
 * `HH:MM:SS` strings, checked by plain string comparison, and the two
 * scheduled log rows written for today. "Today" (UTC, unlike the other
 * services) is passed in.
 */
module Sleep {
  import opened Wrappers
  import opened Dates
  import opened QuestModels
  import opened Habits

  datatype SleepHabit = SleepHabit(userId: UserId, sleepTime: string, wakeupTime: string)

  datatype TaskType = SleepTask | WakeupTask

  /** A scheduled sleep task; `scheduled_time` is today's date followed by the habit's time. */
  datatype SleepLog = SleepLog(userId: UserId, taskType: TaskType, scheduledDate: Date, scheduledTime: string, completed: bool)

  const ORDER_MSG: string := "Sleep time must be before wakeup time"

  /** Python's `a < b` on strings: lexicographic order of the characters. */
  predicate StringBefore(a: string, b: string)
  {
    if |a| == 0 then |b| > 0
    else if |b| == 0 then false
    else if a[0] == b[0] then StringBefore(a[1..], b[1..])
    else a[0] < b[0]
  }

  /**
   * The request check of `set_sleep_habit`: both times must be present and
   * non-empty, and `sleep_time >= wakeup_time` is refused.
   */
  function CheckHabit(sleepTime: Option<string>, wakeupTime: Option<string>): (r: Result<(string, string)>)
    ensures r.Success? <==> TruthyText(sleepTime) && TruthyText(wakeupTime) && StringBefore(sleepTime.value, wakeupTime.value)
    ensures r.Success? ==> r.value == (sleepTime.value, wakeupTime.value)
    ensures !(TruthyText(sleepTime) && TruthyText(wakeupTime)) ==> r == Failure(Error(BAD_REQUEST, MISSING_FIELDS_MSG))
    ensures TruthyText(sleepTime) && TruthyText(wakeupTime) && !StringBefore(sleepTime.value, wakeupTime.value)
            ==> r == Failure(Error(BAD_REQUEST, ORDER_MSG))
  {
    if !TruthyText(sleepTime) || !TruthyText(wakeupTime) then Failure(Error(BAD_REQUEST, MISSING_FIELDS_MSG))
    else if !StringBefore(sleepTime.value, wakeupTime.value) then Failure(Error(BAD_REQUEST, ORDER_MSG))
    else Success((sleepTime.value, wakeupTime.value))
  }

  /** The log table after deleting the user's logs scheduled today or later. */
  function WithoutFromDay(logs: map<LogId, SleepLog>, user: UserId, today: Date): (r: map<LogId, SleepLog>)
    ensures forall id | id in r :: id in logs && r[id] == logs[id]
    ensures forall id | id in logs :: id in r <==> !(logs[id].userId == user && OnOrBefore(today, logs[id].scheduledDate))
  {
    map id | id in logs && !(logs[id].userId == user && OnOrBefore(today, logs[id].scheduledDate)) :: logs[id]
  }

  /** The ids of the user's logs scheduled on `today` or later. */
  function LogsFrom(logs: map<LogId, SleepLog>, user: UserId, today: Date): set<LogId>
  {
    set id | id in logs && logs[id].userId == user && OnOrBefore(today, logs[id].scheduledDate)
  }

  /**
   * The two rows `set_sleep_habit` inserts. The insert names no `completed`
   * value; the column's default is taken to be false.
   */
  function NewLogs(logs: map<LogId, SleepLog>, user: UserId, today: Date, sleepTime: string, wakeupTime: string,
                   id: LogId): map<LogId, SleepLog>
  {
    WithoutFromDay(logs, user, today)[id := SleepLog(user, SleepTask, today, sleepTime, false)]
                                     [id + 1 := SleepLog(user, WakeupTask, today, wakeupTime, false)]
  }

  /** The `sleep_habits` and `sleep_logs` tables. */
  class SleepService {
    var habits: map<UserId, SleepHabit>
    var logs: map<LogId, SleepLog>
    var nextId: LogId

    ghost predicate Valid()
      reads this
    {
      forall id | id in logs :: id < nextId
    }

    constructor ()
      ensures Valid() && habits == map[] && logs == map[] && nextId == 0
    {
      habits := map[];
      logs := map[];
      nextId := 0;
    }

    /**
     * `set_sleep_habit`: refused before any write as `CheckHabit` says;
     * otherwise the times are upserted unchanged, the user's logs from
     * today on are deleted and a sleep and a wake-up task are scheduled
     * for today.
     */
    method SetSleepHabit(user: UserId, sleepTime: Option<string>, wakeupTime: Option<string>, today: Date)
      returns (r: Result<SleepHabit>)
      requires Valid()
      modifies this
      ensures Valid()
      ensures CheckHabit(sleepTime, wakeupTime).Failure? ==>
                r == Failure(CheckHabit(sleepTime, wakeupTime).error)
                && habits == old(habits) && logs == old(logs) && nextId == old(nextId)
      ensures CheckHabit(sleepTime, wakeupTime).Success? ==>
                var habit := SleepHabit(user, sleepTime.value, wakeupTime.value);
                r == Success(habit) && habits == old(habits)[user := habit]
                && logs == NewLogs(old(logs), user, today, sleepTime.value, wakeupTime.value, old(nextId))
                && nextId == old(nextId) + 2
    {
      var check := CheckHabit(sleepTime, wakeupTime);
      if check.Failure? {
        return Failure(check.error);
      }
      var (bedtime, wakeup) := check.value;
      var habit := SleepHabit(user, bedtime, wakeup);
      habits := habits[user := habit];
      logs := NewLogs(logs, user, today, bedtime, wakeup, nextId);
      nextId := nextId + 2;
      r := Success(habit);
    }
  }

  // ---------------------------------------------------------------- clock strings

  predicate IsDigit(c: char) {
    '0' <= c <= '9'
  }

  function DigitValue(c: char): int {
    c as int - '0' as int
  }

  /** A well-formed `HH:MM:SS` string with minutes and seconds below 60. */
  predicate IsClock(s: string) {
    |s| == 8 && s[2] == ':' && s[5] == ':'
    && IsDigit(s[0]) && IsDigit(s[1]) && IsDigit(s[3]) && IsDigit(s[4]) && IsDigit(s[6]) && IsDigit(s[7])
    && s[3] <= '5' && s[6] <= '5'
  }

  /** The seconds since midnight a clock string denotes. */
  function Seconds(s: string): int
    requires IsClock(s)
  {
    (10 * DigitValue(s[0]) + DigitValue(s[1])) * 3600
    + (10 * DigitValue(s[3]) + DigitValue(s[4])) * 60
    + 10 * DigitValue(s[6]) + DigitValue(s[7])
  }

  // ---------------------------------------------------------------- lemmas

  /** One step of the lexicographic comparison, at position `k` of two equally long strings. */
  lemma StringBeforeAt(a: string, b: string, k: nat)
    requires |a| == |b| && k < |a|
    ensures StringBefore(a[k..], b[k..]) == (if a[k] == b[k] then StringBefore(a[k + 1..], b[k + 1..]) else a[k] < b[k])
  {
    assert a[k..][1..] == a[k + 1..];
    assert b[k..][1..] == b[k + 1..];
  }

  /** Two digits compared one after the other are compared as a two-digit number. */
  lemma TwoDigitOrder(x1: char, x2: char, y1: char, y2: char)
    requires IsDigit(x1) && IsDigit(x2) && IsDigit(y1) && IsDigit(y2)
    ensures (x1 < y1 || (x1 == y1 && x2 < y2)) <==> 10 * DigitValue(x1) + DigitValue(x2) < 10 * DigitValue(y1) + DigitValue(y2)
    ensures (x1 == y1 && x2 == y2) <==> 10 * DigitValue(x1) + DigitValue(x2) == 10 * DigitValue(y1) + DigitValue(y2)
  {
  }

  /** Hours, minutes and seconds below 60 compared field by field are compared as seconds since midnight. */
  lemma MixedRadixOrder(ha: int, ma: int, sa: int, hb: int, mb: int, sb: int)
    requires 0 <= ma < 60 && 0 <= mb < 60 && 0 <= sa < 60 && 0 <= sb < 60
    ensures (ha < hb || (ha == hb && (ma < mb || (ma == mb && sa < sb))))
            <==> ha * 3600 + ma * 60 + sa < hb * 3600 + mb * 60 + sb
  {
  }

  /**
   * Two digits and the separator after them, compared lexicographically:
   * the digits decide unless both are equal, and then the rest decides.
   */
  lemma FieldStep(a: string, b: string, k: nat)
    requires |a| == |b| && k + 3 <= |a| && a[k + 2] == b[k + 2]
    requires IsDigit(a[k]) && IsDigit(a[k + 1]) && IsDigit(b[k]) && IsDigit(b[k + 1])
    ensures var x, y := 10 * DigitValue(a[k]) + DigitValue(a[k + 1]), 10 * DigitValue(b[k]) + DigitValue(b[k + 1]);
            StringBefore(a[k..], b[k..]) == (if x == y then StringBefore(a[k + 3..], b[k + 3..]) else x < y)
  {
    StringBeforeAt(a, b, k);
    StringBeforeAt(a, b, k + 1);
    StringBeforeAt(a, b, k + 2);
    TwoDigitOrder(a[k], a[k + 1], b[k], b[k + 1]);
  }

  /** The last two digits, compared lexicographically, are compared as a two-digit number. */
  lemma LastFieldStep(a: string, b: string, k: nat)
    requires |a| == |b| == k + 2
    requires IsDigit(a[k]) && IsDigit(a[k + 1]) && IsDigit(b[k]) && IsDigit(b[k + 1])
    ensures StringBefore(a[k..], b[k..]) == (10 * DigitValue(a[k]) + DigitValue(a[k + 1]) < 10 * DigitValue(b[k]) + DigitValue(b[k + 1]))
  {
    StringBeforeAt(a, b, k);
    StringBeforeAt(a, b, k + 1);
    assert a[k + 2..] == [] && b[k + 2..] == [];
    TwoDigitOrder(a[k], a[k + 1], b[k], b[k + 1]);
  }

  /**
   * On well-formed clock strings the string comparison the service uses is
   * the order of the times of day.
   */
  lemma ClockOrder(a: string, b: string)
    requires IsClock(a) && IsClock(b)
    ensures StringBefore(a, b) <==> Seconds(a) < Seconds(b)
  {
    assert a[0..] == a && b[0..] == b;
    FieldStep(a, b, 0);
    FieldStep(a, b, 3);
    LastFieldStep(a, b, 6);
    MixedRadixOrder(10 * DigitValue(a[0]) + DigitValue(a[1]), 10 * DigitValue(a[3]) + DigitValue(a[4]),
                    10 * DigitValue(a[6]) + DigitValue(a[7]), 10 * DigitValue(b[0]) + DigitValue(b[1]),
                    10 * DigitValue(b[3]) + DigitValue(b[4]), 10 * DigitValue(b[6]) + DigitValue(b[7]));
  }

  /**
   * A habit that goes to bed before midnight and wakes up after it is
   * refused: 23:00:00 is not before 06:30:00.
   */
  lemma OvernightHabitRefused()
    ensures CheckHabit(Some("23:00:00"), Some("06:30:00")) == Failure(Error(BAD_REQUEST, ORDER_MSG))
  {
    assert "23:00:00"[0] == '2' && "06:30:00"[0] == '0';
  }

  /**
   * After a successful `set_sleep_habit` the user's logs from today on are
   * exactly the two new tasks, a sleep task and a wake-up task for today at
   * the habit's times; the user's earlier logs and other users' logs stay.
   */
  lemma NewLogsFromToday(logs: map<LogId, SleepLog>, user: UserId, today: Date, sleepTime: string, wakeupTime: string,
                         id: LogId)
    requires forall k | k in logs :: k < id
    ensures var after := NewLogs(logs, user, today, sleepTime, wakeupTime, id);
            LogsFrom(after, user, today) == {id, id + 1}
            && after[id] == SleepLog(user, SleepTask, today, sleepTime, false)
            && after[id + 1] == SleepLog(user, WakeupTask, today, wakeupTime, false)
            && forall k | k in logs && !(logs[k].userId == user && OnOrBefore(today, logs[k].scheduledDate)) ::
                 k in after && after[k] == logs[k]
  {
  }
}
