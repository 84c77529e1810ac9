/**
 * A daily quest card of the rewards page (`DailyQuestItem`): whether its
 * claim button shows, whether it is enabled, and the claim handler. The
 * claim is still a mock on the client (a fixed delay, then a success
 * toast), so a claim started always ends with the card locally claimed.
 * The component's two state flags are a value `ItemState`; the handler and
 * the end of the delay are two steps on it, because a second click can
 * arrive while the delay runs.
 */
module ClientQuests {
  import opened Wrappers
  import opened QuestModels
  import opened Percent

  /** A quest as the rewards page holds it (`Quest` in the client's types). */
  datatype ClientQuest = ClientQuest(
    id: string,
    title: string,
    currentProgress: real,
    targetProgress: real,
    rewardType: RewardType,
    rewardAmount: real,
    isClaimable: bool,
    isCompleted: bool,
    questType: Option<string>)

  datatype ItemState = ItemState(isLocallyClaimed: bool, isClaiming: bool)

  /** A freshly mounted card: not claimed locally, no claim in flight. */
  const INITIAL: ItemState := ItemState(false, false)

  predicate CanClaimNow(q: ClientQuest, s: ItemState)
  {
    q.isClaimable && !s.isLocallyClaimed
  }

  predicate ButtonDisabled(q: ClientQuest, s: ItemState)
  {
    s.isClaiming || !CanClaimNow(q, s)
  }

  /** The claim button is rendered only for a completed quest. */
  predicate ShowsButton(q: ClientQuest)
  {
    q.isCompleted
  }

  function ButtonLabel(q: ClientQuest, s: ItemState): string
  {
    if CanClaimNow(q, s) then "Claim" else "Claimed"
  }

  /** The width of the card's progress bar. */
  function Percentage(q: ClientQuest): real
  {
    QuestPercentage(q.currentProgress, q.targetProgress)
  }

  /**
   * `handleClaim` up to its `await`: ignored unless the quest can be claimed
   * now and no claim is in flight; otherwise the card enters the claiming
   * state. The flag says whether a claim was started.
   */
  function Click(q: ClientQuest, s: ItemState): (r: (ItemState, bool))
    ensures r.1 ==> !ButtonDisabled(q, s) && r.0 == ItemState(s.isLocallyClaimed, true)
    ensures !r.1 ==> r.0 == s
    ensures !ButtonDisabled(q, s) ==> r.1
  {
    if !CanClaimNow(q, s) || s.isClaiming then (s, false)
    else (s.(isClaiming := true), true)
  }

  /** The end of the mock delay: the success branch marks the card claimed, and `finally` clears the claiming flag. */
  function Resolve(s: ItemState): (r: ItemState)
    ensures r.isLocallyClaimed && !r.isClaiming
  {
    s.(isLocallyClaimed := true, isClaiming := false)
  }

  /** The events a mounted card can see. */
  datatype Event = ClickEvent | DelayEnds

  /** One event: the delay only ends for a claim that is in flight. */
  function Step(q: ClientQuest, s: ItemState, e: Event): ItemState
  {
    match e
    case ClickEvent => Click(q, s).0
    case DelayEnds => if s.isClaiming then Resolve(s) else s
  }

  /** The number of claims a sequence of events starts. */
  function Starts(q: ClientQuest, s: ItemState, events: seq<Event>): nat
    decreases |events|
  {
    if |events| == 0 then 0
    else
      (if events[0] == ClickEvent && Click(q, s).1 then 1 else 0) + Starts(q, Step(q, s, events[0]), events[1..])
  }

  function Run(q: ClientQuest, s: ItemState, events: seq<Event>): ItemState
    decreases |events|
  {
    if |events| == 0 then s else Run(q, Step(q, s, events[0]), events[1..])
  }

  class QuestItem {
    const quest: ClientQuest
    var isLocallyClaimed: bool
    var isClaiming: bool

    function State(): ItemState
      reads this
    {
      ItemState(isLocallyClaimed, isClaiming)
    }

    constructor (quest: ClientQuest)
      ensures this.quest == quest && State() == INITIAL
    {
      this.quest := quest;
      isLocallyClaimed := false;
      isClaiming := false;
    }

    method HandleClaim() returns (started: bool)
      modifies this
      ensures (State(), started) == Click(quest, old(State()))
    {
      if !CanClaimNow(quest, State()) || isClaiming {
        return false;
      }
      isClaiming := true;
      started := true;
    }

    method ClaimDelayEnds()
      requires isClaiming
      modifies this
      ensures State() == Resolve(old(State()))
    {
      isLocallyClaimed := true;
      isClaiming := false;
    }
  }

  // ---------------------------------------------------------------- lemmas

  /** A click while a claim is in flight changes nothing and starts nothing. */
  lemma ClickWhileClaimingIgnored(q: ClientQuest, s: ItemState)
    requires s.isClaiming
    ensures Click(q, s) == (s, false)
  {
  }

  /** Once a claim has completed the card reads "Claimed", its button is disabled, and it stays so whatever happens next. */
  lemma {:induction false} ClaimedStaysClaimed(q: ClientQuest, s: ItemState, events: seq<Event>)
    requires s.isLocallyClaimed
    ensures Run(q, s, events).isLocallyClaimed
    ensures ButtonDisabled(q, Run(q, s, events)) && ButtonLabel(q, Run(q, s, events)) == "Claimed"
    ensures Starts(q, s, events) == 0
    decreases |events|
  {
    if |events| > 0 {
      ClaimedStaysClaimed(q, Step(q, s, events[0]), events[1..]);
    }
  }

  /** While a claim is in flight or after one completed, no further claim can start before the card is remounted. */
  lemma {:induction false} StartsBound(q: ClientQuest, s: ItemState, events: seq<Event>)
    ensures Starts(q, s, events) <= (if s.isLocallyClaimed || s.isClaiming then 0 else 1)
    ensures s.isClaiming && !s.isLocallyClaimed ==> Starts(q, s, events) == 0
    decreases |events|
  {
    if |events| > 0 {
      var next := Step(q, s, events[0]);
      StartsBound(q, next, events[1..]);
    }
  }

  /** A mounted card starts at most one claim over its lifetime. */
  lemma AtMostOneClaim(q: ClientQuest, events: seq<Event>)
    ensures Starts(q, INITIAL, events) <= 1
  {
    StartsBound(q, INITIAL, events);
  }

  /** A claimable quest's card starts its claim on the first click, and after the delay it is claimed. */
  lemma ClaimableCardClaims(q: ClientQuest)
    requires q.isClaimable
    ensures Starts(q, INITIAL, [ClickEvent, DelayEnds]) == 1
    ensures Run(q, INITIAL, [ClickEvent, DelayEnds]) == ItemState(true, false)
  {
    assert [ClickEvent, DelayEnds][1..] == [DelayEnds];
    assert [DelayEnds][1..] == [];
  }

  /** A card whose quest is not claimable never starts a claim. */
  lemma {:induction false} UnclaimableNeverStarts(q: ClientQuest, s: ItemState, events: seq<Event>)
    requires !q.isClaimable
    ensures Starts(q, s, events) == 0
    decreases |events|
  {
    if |events| > 0 {
      UnclaimableNeverStarts(q, Step(q, s, events[0]), events[1..]);
    }
  }
}
