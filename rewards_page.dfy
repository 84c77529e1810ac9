/**
 * The quests tab of the rewards page: the daily quest list is still a fixed
 * mock list, and only the check-in quest's status is derived from the
 * rewards row fetched from `/xp`. The browser's local date and the current
 * UTC date (what `toISOString` yields) are passed in; a date string parsed
 * at local midnight equals today's local midnight exactly when the two
 * calendar dates are equal.
 */
module RewardsPage {
  import opened Wrappers
  import opened Dates
  import opened QuestModels
  import opened ClientQuests

  /** The fixed daily quest list the page starts from. */
  const MOCK_DAILY_QUESTS: seq<ClientQuest> := [
    ClientQuest("dq1", "Drink up 1500ml", 750.0, 1500.0, Coins, 30.0, false, false, Some("hydrate")),
    ClientQuest("dq2", "Complete 3 Daily Tasks", 1.0, 3.0, Coins, 50.0, false, false, None),
    ClientQuest("dq4", "Log Dinner", 1.0, 1.0, Diamonds, 1.0, true, true, Some("diet")),
    ClientQuest("dq3", "Check-in Today", 0.0, 1.0, Coins, 10.0, false, false, Some("checkin"))]

  const LOAD_FAILED_MSG := "Failed to load rewards data."
  const UNEXPECTED_MSG := "An unexpected error occurred."

  /**
   * Whether the page counts the user as checked in today: the row's
   * `last_checkin_date`, or the current UTC date when that field is empty,
   * must be the local date.
   */
  predicate IsCheckedIn(lastCheckin: Option<Date>, localToday: Date, utcToday: Date)
  {
    lastCheckin.GetOr(utcToday) == localToday
  }

  /** One quest of the mapped list: the check-in quest gets progress 1 and both flags when checked in, else 0 and neither. */
  function MarkQuest(q: ClientQuest, checkedIn: bool): ClientQuest
  {
    if q.questType == Some("checkin") then
      q.(currentProgress := if checkedIn then 1.0 else 0.0, isCompleted := checkedIn, isClaimable := checkedIn)
    else q
  }

  /** The quest list built from a fetched rewards row. */
  function MarkCheckin(quests: seq<ClientQuest>, lastCheckin: Option<Date>, localToday: Date, utcToday: Date): (r: seq<ClientQuest>)
    ensures |r| == |quests|
  {
    var checkedIn := IsCheckedIn(lastCheckin, localToday, utcToday);
    seq(|quests|, i requires 0 <= i < |quests| => MarkQuest(quests[i], checkedIn))
  }

  /** What `fetchApi('/xp')` produced: a row, an error response, or an exception. */
  datatype XpResponse = XpData(row: XpRewardsData) | XpError(message: Option<string>) | XpThrown

  class RewardsScreen {
    var rewardsData: Option<XpRewardsData>
    var dailyQuests: seq<ClientQuest>
    var isLoading: bool
    var error: Option<string>

    constructor ()
      ensures rewardsData == None && dailyQuests == [] && isLoading && error == None
    {
      rewardsData := None;
      dailyQuests := [];
      isLoading := true;
      error := None;
    }

    /**
     * `fetchRewardsData` once its request has settled. The row's check-in
     * date is always present here: the backend's column is not nullable,
     * so the empty-date fallback of `MarkCheckin` is not reached from this
     * call.
     */
    method FetchRewardsData(response: XpResponse, localToday: Date, utcToday: Date)
      modifies this
      ensures !isLoading
      ensures response.XpData? ==>
        rewardsData == Some(response.row) && error == None
        && dailyQuests == MarkCheckin(MOCK_DAILY_QUESTS, Some(response.row.lastCheckinDate), localToday, utcToday)
      ensures response.XpError? ==>
        rewardsData == old(rewardsData) && dailyQuests == MOCK_DAILY_QUESTS
        && error == Some(if response.message.Some? && response.message.value != "" then response.message.value else LOAD_FAILED_MSG)
      ensures response.XpThrown? ==>
        rewardsData == old(rewardsData) && dailyQuests == MOCK_DAILY_QUESTS && error == Some(UNEXPECTED_MSG)
    {
      isLoading := true;
      error := None;
      match response {
        case XpData(row) =>
          rewardsData := Some(row);
          dailyQuests := MarkCheckin(MOCK_DAILY_QUESTS, Some(row.lastCheckinDate), localToday, utcToday);
        case XpError(message) =>
          error := Some(if message.Some? && message.value != "" then message.value else LOAD_FAILED_MSG);
          dailyQuests := MOCK_DAILY_QUESTS;
        case XpThrown =>
          error := Some(UNEXPECTED_MSG);
          dailyQuests := MOCK_DAILY_QUESTS;
      }
      isLoading := false;
    }
  }

  // ---------------------------------------------------------------- lemmas

  /** The check-in quest is complete and claimable with progress 1 exactly when the reported date is today, and shows 0 otherwise. */
  lemma CheckinQuestStatus(quests: seq<ClientQuest>, lastCheckin: Option<Date>, localToday: Date, utcToday: Date, i: int)
    requires 0 <= i < |quests| && quests[i].questType == Some("checkin")
    ensures var q := MarkCheckin(quests, lastCheckin, localToday, utcToday)[i];
      (q.isCompleted <==> lastCheckin.GetOr(utcToday) == localToday)
      && q.isClaimable == q.isCompleted
      && q.currentProgress == (if q.isCompleted then 1.0 else 0.0)
  {
  }

  /** Every other quest passes through unchanged, in its place. */
  lemma OtherQuestsUnchanged(quests: seq<ClientQuest>, lastCheckin: Option<Date>, localToday: Date, utcToday: Date, i: int)
    requires 0 <= i < |quests| && quests[i].questType != Some("checkin")
    ensures MarkCheckin(quests, lastCheckin, localToday, utcToday)[i] == quests[i]
  {
  }

  /** Only the status fields change: ids, titles, targets and rewards keep their order. */
  lemma MarkingKeepsIdentity(quests: seq<ClientQuest>, lastCheckin: Option<Date>, localToday: Date, utcToday: Date, i: int)
    requires 0 <= i < |quests|
    ensures var q := MarkCheckin(quests, lastCheckin, localToday, utcToday)[i];
      q.id == quests[i].id && q.title == quests[i].title && q.targetProgress == quests[i].targetProgress
      && q.rewardType == quests[i].rewardType && q.rewardAmount == quests[i].rewardAmount && q.questType == quests[i].questType
  {
  }

  /**
   * An empty check-in date counts as today's UTC date: it reads as checked
   * in whenever the UTC and local dates agree, and as not checked in on the
   * hours of the day when they differ.
   */
  lemma MissingDateReadsAsUtcToday(quests: seq<ClientQuest>, localToday: Date, utcToday: Date, i: int)
    requires 0 <= i < |quests| && quests[i].questType == Some("checkin")
    ensures MarkCheckin(quests, None, localToday, utcToday)[i].isClaimable <==> utcToday == localToday
  {
  }

  /** The mock list's check-in quest is its last entry, so a fetched row decides only that card. */
  lemma MockCheckinQuest(lastCheckin: Option<Date>, localToday: Date, utcToday: Date)
    ensures var r := MarkCheckin(MOCK_DAILY_QUESTS, lastCheckin, localToday, utcToday);
      r[..3] == MOCK_DAILY_QUESTS[..3] && r[3].id == "dq3"
      && (r[3].isClaimable <==> IsCheckedIn(lastCheckin, localToday, utcToday))
  {
    var r := MarkCheckin(MOCK_DAILY_QUESTS, lastCheckin, localToday, utcToday);
    assert r[0] == MOCK_DAILY_QUESTS[0];
    assert r[1] == MOCK_DAILY_QUESTS[1];
    assert r[2] == MOCK_DAILY_QUESTS[2];
  }

  /** After checking in, the check-in quest's card (freshly mounted) offers its claim. */
  lemma CheckedInCardIsClaimable(localToday: Date, utcToday: Date)
    ensures var q := MarkCheckin(MOCK_DAILY_QUESTS, Some(localToday), localToday, utcToday)[3];
      ShowsButton(q) && !ButtonDisabled(q, INITIAL)
  {
  }
}
