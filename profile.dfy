/**
 * The user profile: the server's `ProfileBase` model (field constraints
 * and defaults applied to the JSON body of `PUT /profile`) and the
 * settings form that builds that body (`handleSubmit` normalises the form
 * fields, `validateProfileData` checks them before anything is sent).
 */
module Profile {
  import opened Wrappers
  import opened Text

  /** A JSON value of a request body, as far as the profile fields go. */
  datatype JsonValue = JText(s: string) | JNumber(x: real) | JNull

  type Body = map<string, JsonValue>

  // ------------------------------------------------------- server model

  datatype ProfileBase = ProfileBase(
    username: Option<string>,
    gender: Option<string>,
    weight: Option<real>,
    height: Option<real>,
    age: Option<int>)

  /** The value of every field the body leaves out. */
  const DEFAULT_PROFILE: ProfileBase := ProfileBase(Some("Human"), Some("female"), Some(50.0), Some(160.0), Some(20))

  const INVALID_INPUT_MSG := "Invalid input data"

  /** A real with no fractional part, as an integer field accepts it. */
  predicate IsIntegral(x: real)
  {
    x == x.Floor as real
  }

  /** One optional field: absent takes the default, `null` is kept as no value, anything else must pass `check`. */
  function ParseUsername(v: Option<JsonValue>): (r: Option<Option<string>>)
    ensures r.Some? <==> v.None? || v.value.JNull? || (v.value.JText? && 3 <= |v.value.s| <= 50)
  {
    match v
    case None => Some(DEFAULT_PROFILE.username)
    case Some(JNull) => Some(None)
    case Some(JText(s)) => if 3 <= |s| <= 50 then Some(Some(s)) else None
    case Some(JNumber(_)) => None
  }

  /** `gender` must match `^(male|female)$`. */
  function ParseGender(v: Option<JsonValue>): (r: Option<Option<string>>)
    ensures r.Some? <==> v.None? || v.value.JNull? || v.value == JText("male") || v.value == JText("female")
  {
    match v
    case None => Some(DEFAULT_PROFILE.gender)
    case Some(JNull) => Some(None)
    case Some(JText(s)) => if s == "male" || s == "female" then Some(Some(s)) else None
    case Some(JNumber(_)) => None
  }

  /** `weight` and `height` must be numbers greater than 0. */
  function ParsePositive(v: Option<JsonValue>, default: real): (r: Option<Option<real>>)
    ensures r.Some? <==> v.None? || v.value.JNull? || (v.value.JNumber? && v.value.x > 0.0)
  {
    match v
    case None => Some(Some(default))
    case Some(JNull) => Some(None)
    case Some(JNumber(x)) => if x > 0.0 then Some(Some(x)) else None
    case Some(JText(_)) => None
  }

  /** `age` must be a whole number in [1, 100]. */
  function ParseAge(v: Option<JsonValue>): (r: Option<Option<int>>)
    ensures r.Some? <==> v.None? || v.value.JNull? || (v.value.JNumber? && IsIntegral(v.value.x) && 1.0 <= v.value.x <= 100.0)
  {
    match v
    case None => Some(DEFAULT_PROFILE.age)
    case Some(JNull) => Some(None)
    case Some(JNumber(x)) => if IsIntegral(x) && 1.0 <= x <= 100.0 then Some(Some(x.Floor)) else None
    case Some(JText(_)) => None
  }

  function Field(body: Body, key: string): Option<JsonValue>
  {
    if key in body then Some(body[key]) else None
  }

  /** `ProfileBase(**data)` in the update route: a validation error is a 400. */
  function ValidateBody(body: Body): (r: Result<ProfileBase>)
    ensures r.Failure? ==> r.error == Error(BAD_REQUEST, INVALID_INPUT_MSG)
    ensures r.Success? ==> r.value.weight.None? || r.value.weight.value > 0.0
    ensures r.Success? ==> r.value.height.None? || r.value.height.value > 0.0
    ensures r.Success? ==> r.value.age.None? || 1 <= r.value.age.value <= 100
    ensures r.Success? ==> r.value.username.None? || 3 <= |r.value.username.value| <= 50
    ensures r.Success? ==> r.value.gender in {None, Some("male"), Some("female")}
  {
    var u := ParseUsername(Field(body, "username"));
    var g := ParseGender(Field(body, "gender"));
    var w := ParsePositive(Field(body, "weight"), 50.0);
    var h := ParsePositive(Field(body, "height"), 160.0);
    var a := ParseAge(Field(body, "age"));
    if u.Some? && g.Some? && w.Some? && h.Some? && a.Some? then
      Success(ProfileBase(u.value, g.value, w.value, h.value, a.value))
    else Failure(Error(BAD_REQUEST, INVALID_INPUT_MSG))
  }

  // ---------------------------------------------------------- client form

  /** What the form holds under a key: text, a number (`NaN` separately), `null`, or `undefined`. */
  datatype FormValue = FText(s: string) | FNumber(x: real) | FNaN | FNull | FUndefined

  const USERNAME_MSG := "Username must be between 3 and 50 characters."
  const WEIGHT_MSG := "Weight must be a positive number."
  const HEIGHT_MSG := "Height must be a positive number."
  const AGE_MSG := "Age must be between 1 and 100."

  predicate IsNumericKey(key: string)
  {
    key == "weight" || key == "height" || key == "age"
  }

  /**
   * The value `handleSubmit` keeps for one form entry, or `None` when it
   * drops the key: numeric fields that are empty, `null`, `undefined` or
   * not a number are dropped, and `username` is trimmed and dropped when
   * nothing is left. A `NaN` elsewhere is sent as JSON `null`.
   */
  function NormaliseEntry(key: string, v: FormValue): (r: Option<JsonValue>)
    ensures IsNumericKey(key) ==> (r.Some? <==> v.FNumber?) && (r.Some? ==> r.value == JNumber(v.x))
    ensures key == "username" && v.FText? ==> (r.Some? <==> Trim(v.s) != "") && (r.Some? ==> r.value == JText(Trim(v.s)))
    ensures v.FUndefined? ==> r.None?
  {
    if IsNumericKey(key) then
      (if v.FNumber? then Some(JNumber(v.x)) else None)
    else
      match v
      case FText(s) =>
        if key == "username" then (if Trim(s) == "" then None else Some(JText(Trim(s)))) else Some(JText(s))
      case FNumber(x) => Some(JNumber(x))
      case FNaN => Some(JNull)
      case FNull => Some(JNull)
      case FUndefined => None
  }

  /** The body the entries produce, later entries overriding earlier ones. */
  function PayloadOf(entries: seq<(string, FormValue)>): Body
    decreases |entries|
  {
    if |entries| == 0 then map[]
    else
      var p := PayloadOf(entries[..|entries| - 1]);
      var (k, v) := entries[|entries| - 1];
      var n := NormaliseEntry(k, v);
      if n.Some? then p[k := n.value] else p
  }

  /** `handleSubmit`'s `forEach`, filling the body key by key. */
  method CollectPayload(entries: seq<(string, FormValue)>) returns (payload: Body)
    ensures payload == PayloadOf(entries)
  {
    payload := map[];
    var i := 0;
    while i < |entries|
      invariant 0 <= i <= |entries|
      invariant payload == PayloadOf(entries[..i])
    {
      var (k, v) := entries[i];
      var n := NormaliseEntry(k, v);
      assert entries[..i + 1][..i] == entries[..i];
      if n.Some? {
        payload := payload[k := n.value];
      }
      i := i + 1;
    }
    assert entries[..|entries|] == entries;
  }

  /** `validateProfileData`: the first failing check's message, in the order username, weight, height, age. */
  function ValidateProfileData(p: Body): (r: Option<string>)
    ensures r.Some? ==> r.value in {USERNAME_MSG, WEIGHT_MSG, HEIGHT_MSG, AGE_MSG}
    ensures (forall k | k in p :: !p[k].JNumber? && !p[k].JText?) ==> r.None?
  {
    if "username" in p && p["username"].JText? && p["username"].s != "" && (|p["username"].s| < 3 || |p["username"].s| > 50) then
      Some(USERNAME_MSG)
    else if "weight" in p && p["weight"].JNumber? && p["weight"].x <= 0.0 then Some(WEIGHT_MSG)
    else if "height" in p && p["height"].JNumber? && p["height"].x <= 0.0 then Some(HEIGHT_MSG)
    else if "age" in p && p["age"].JNumber? && (p["age"].x < 1.0 || p["age"].x > 100.0) then Some(AGE_MSG)
    else None
  }

  /** The form entries `setFormData` builds from a profile the server returned. */
  function FormOf(p: ProfileBase): seq<(string, FormValue)>
  {
    [("username", if p.username.Some? then FText(p.username.value) else FNull),
     ("gender", if p.gender.Some? then FText(p.gender.value) else FNull),
     ("weight", if p.weight.Some? then FNumber(p.weight.value) else FNull),
     ("height", if p.height.Some? then FNumber(p.height.value) else FNull),
     ("age", if p.age.Some? then FNumber(p.age.value as real) else FNull)]
  }

  /** What the awaited `PUT /profile` produced. */
  datatype SaveOutcome = Saved(profile: ProfileBase) | SaveFailed(error: Option<string>) | SaveThrew

  class ProfileSettings {
    var formData: seq<(string, FormValue)>
    var profile: Option<ProfileBase>
    var isSaving: bool

    constructor ()
      ensures formData == [] && profile == None && !isSaving
    {
      formData := [];
      profile := None;
      isSaving := false;
    }

    /**
     * `handleSubmit`: the body is built and checked; a failed check sends
     * nothing. Otherwise the body is sent and a saved profile replaces the
     * form. `sent` is the body of the request, if one was made.
     */
    method HandleSubmit(outcome: SaveOutcome) returns (sent: Option<Body>)
      modifies this
      ensures var body := PayloadOf(old(formData));
        (sent.Some? <==> ValidateProfileData(body).None?) && (sent.Some? ==> sent.value == body)
      ensures !isSaving
      ensures sent.Some? && outcome.Saved? ==> profile == Some(outcome.profile) && formData == FormOf(outcome.profile)
      ensures !(sent.Some? && outcome.Saved?) ==> profile == old(profile) && formData == old(formData)
    {
      var payload := CollectPayload(formData);
      if ValidateProfileData(payload).Some? {
        isSaving := false;
        return None;
      }
      isSaving := true;
      sent := Some(payload);
      if outcome.Saved? {
        profile := Some(outcome.profile);
        formData := FormOf(outcome.profile);
      }
      isSaving := false;
    }
  }

  // ----------------------------------------------------------------- lemmas

  /** An empty body yields the model's defaults: "Human", female, 50, 160, 20. */
  lemma EmptyBodyGivesDefaults()
    ensures ValidateBody(map[]) == Success(DEFAULT_PROFILE)
  {
  }

  /** A weight of -5 is refused with 400, and the client refuses it before sending. */
  lemma NegativeWeightRefused()
    ensures ValidateBody(map["weight" := JNumber(-5.0)]) == Failure(Error(BAD_REQUEST, INVALID_INPUT_MSG))
    ensures ValidateProfileData(map["weight" := JNumber(-5.0)]) == Some(WEIGHT_MSG)
  {
  }

  /** The username check runs first: a short username is reported even when the weight is also wrong. */
  lemma UsernameCheckedFirst()
    ensures ValidateProfileData(map["username" := JText("ab"), "weight" := JNumber(0.0)]) == Some(USERNAME_MSG)
  {
  }

  lemma {:induction false} PayloadShape(entries: seq<(string, FormValue)>)
    ensures var p := PayloadOf(entries);
      (forall k | k in p && IsNumericKey(k) :: p[k].JNumber?)
      && ("username" in p && p["username"].JText? ==> p["username"].s != "" && Trim(p["username"].s) == p["username"].s)
    decreases |entries|
  {
    if |entries| > 0 {
      PayloadShape(entries[..|entries| - 1]);
      var (k, v) := entries[|entries| - 1];
      if k == "username" && v.FText? && Trim(v.s) != "" {
        TrimIdempotent(v.s);
      }
    }
  }

  /**
   * The body the form sends carries numbers for the numeric fields and a
   * trimmed, non-empty username; a field the form leaves empty or `NaN`
   * is not sent at all.
   */
  lemma {:induction false} EmptyNumericFieldDropped(entries: seq<(string, FormValue)>, key: string)
    requires IsNumericKey(key) && forall i | 0 <= i < |entries| :: entries[i].0 == key ==> !entries[i].1.FNumber?
    ensures key !in PayloadOf(entries)
    decreases |entries|
  {
    if |entries| > 0 {
      EmptyNumericFieldDropped(entries[..|entries| - 1], key);
    }
  }

  /** A body of the right JSON types, with a recognised gender and a whole age. */
  ghost predicate WellTyped(p: Body)
  {
    ("username" in p ==> p["username"] == JNull || (p["username"].JText? && p["username"].s != ""))
    && ("gender" in p ==> p["gender"] in {JNull, JText("male"), JText("female")})
    && (forall k | k in p && IsNumericKey(k) :: p[k].JNumber?)
    && ("age" in p ==> IsIntegral(p["age"].x))
  }

  /** On well-typed bodies the client's checks and the server's constraints accept exactly the same bodies. */
  lemma ClientAndServerAgree(p: Body)
    requires WellTyped(p)
    ensures ValidateProfileData(p).None? <==> ValidateBody(p).Success?
  {
  }

  /** A fractional age passes the client but not the server. */
  lemma FractionalAgeOnlyServerRefuses()
    ensures ValidateProfileData(map["age" := JNumber(25.5)]).None?
    ensures ValidateBody(map["age" := JNumber(25.5)]).Failure?
  {
    assert !IsIntegral(25.5) by {
      assert (25.5).Floor == 25;
    }
  }

  /** A username of spaces is dropped from the request, so the server keeps the current one. */
  lemma BlankUsernameNotSent()
    ensures "username" !in PayloadOf([("username", FText("   "))])
  {
    var s := "   ";
    assert forall i | 0 <= i < |s| :: IsSpace(s[i]);
    TrimEmptyIffBlank(s);
    assert [("username", FText("   "))][..0] == [];
  }
}
