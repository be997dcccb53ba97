/**
 Entitlements on both sides of the language boundary: the tree the server's struct tags print
 (server/internal/license/model.go) and the client's tolerant reading of it (client/src/lib.rs:364-398).
 */
module Entitlements {
  import opened Bytes
  import opened Outcomes

  /** A JSON document, with integers kept apart from other numbers, and zero from negative zero. */
  datatype Json =
    | Null
    | Bool(b: bool)
    | Integer(n: int)
    | NegativeZero
    | Decimal(digits: int, exponent: int)
    | Text(s: string)
    | List(items: seq<Json>)
    | Object(members: map<string, Json>)

  // ---------------------------------------------------------------- the server's side

  /** Slices and maps may be nil, which is not the same as empty; pointers may be nil. */
  datatype Granted = Granted(
    licenseType: string,
    features: Option<seq<string>>,
    seatCount: Option<u32>,
    maxActivations: Option<u32>,
    trialEndsAt: Option<i64>,
    subscriptionExpiresAt: Option<i64>,
    offlineGraceDays: u32,
    customMetadata: Option<map<string, Json>>)

  /** A member tagged `omitempty`: absent when the pointer is nil, present even when it points to zero. */
  function WithOptional(members: map<string, Json>, name: string, value: Option<int>): map<string, Json> {
    match value
    case None => members
    case Some(n) => members[name := Integer(n)]
  }

  function TextList(items: seq<string>): seq<Json> {
    seq(|items|, i requires 0 <= i < |items| => Text(items[i]))
  }

  function Required(g: Granted): map<string, Json> {
    map["license_type" := Text(g.licenseType),
        "features" := if g.features.None? then Null else List(TextList(g.features.value)),
        "offline_grace_days" := Integer(g.offlineGraceDays),
        "custom_metadata" := if g.customMetadata.None? then Null else Object(g.customMetadata.value)]
  }

  function Members(g: Granted): map<string, Json> {
    var seats := WithOptional(Required(g), "seat_count", g.seatCount);
    var counted := WithOptional(seats, "max_activations", g.maxActivations);
    var timed := WithOptional(counted, "trial_ends_at", g.trialEndsAt);
    WithOptional(timed, "subscription_expires_at", g.subscriptionExpiresAt)
  }

  function ToTree(g: Granted): Json {
    Object(Members(g))
  }

  // ---------------------------------------------------------------- the client's side

  datatype LicenseType = Perpetual | Subscription | FloatingSeat | Trial | FeatureFlagged

  datatype Entitlements = Entitlements(
    licenseType: LicenseType,
    features: seq<string>,
    seatCount: Option<u32>,
    maxActivations: Option<u32>,
    trialEndsAt: Option<i64>,
    subscriptionExpiresAt: Option<i64>,
    offlineGraceDays: u32,
    customMetadata: map<string, Json>)

  const DEFAULT_ENTITLEMENTS: Entitlements :=
    Entitlements(Perpetual, ["base"], None, None, None, None, 7, map[])

  function Get(members: map<string, Json>, name: string): Option<Json> {
    if name in members then Some(members[name]) else None
  }

  function AsU64(j: Option<Json>): Option<nat> {
    match j
    case Some(Integer(n)) => if 0 <= n < TWO_64 then Some(n) else None
    case _ => None
  }

  function AsI64(j: Option<Json>): Option<i64> {
    match j
    case Some(Integer(n)) => if MIN_I64 <= n <= MAX_I64 then Some(n) else None
    case _ => None
  }

  /** The conversion `n as u32` keeps the low 32 bits. */
  function AsU32(j: Option<Json>): Option<u32> {
    match AsU64(j)
    case Some(n) => Some(n % TWO_32)
    case None => None
  }

  /** The string elements of a list; everything else in it is dropped. */
  function Strings(items: seq<Json>): seq<string> {
    if items == [] then []
    else (if items[0].Text? then [items[0].s] else []) + Strings(items[1..])
  }

  function TypeOf(name: string): LicenseType {
    if name == "perpetual" then Perpetual
    else if name == "subscription" then Subscription
    else if name == "floating_seat" then FloatingSeat
    else if name == "trial" then Trial
    else FeatureFlagged
  }

  function ParseTree(tree: Json): Option<Entitlements> {
    match tree
    case Object(members) =>
      Some(Entitlements(
             (match Get(members, "license_type") case Some(Text(name)) => TypeOf(name) case _ => FeatureFlagged),
             (match Get(members, "features") case Some(List(items)) => Strings(items) case _ => []),
             AsU32(Get(members, "seat_count")),
             AsU32(Get(members, "max_activations")),
             AsI64(Get(members, "trial_ends_at")),
             AsI64(Get(members, "subscription_expires_at")),
             (match AsU64(Get(members, "offline_grace_days")) case Some(n) => n % TWO_32 case None => 7),
             (match Get(members, "custom_metadata") case Some(Object(m)) => m case _ => map[])))
    case _ => None
  }

  // ---------------------------------------------------------------- across the boundary

  /** What a client is meant to see: nil slices and maps become empty, everything else is kept. */
  function Seen(g: Granted): Entitlements {
    Entitlements(TypeOf(g.licenseType), if g.features.Some? then g.features.value else [],
                 g.seatCount, g.maxActivations, g.trialEndsAt, g.subscriptionExpiresAt, g.offlineGraceDays,
                 if g.customMetadata.Some? then g.customMetadata.value else map[])
  }

  function TypeName(t: LicenseType): string {
    match t
    case Perpetual => "perpetual"
    case Subscription => "subscription"
    case FloatingSeat => "floating_seat"
    case Trial => "trial"
    case FeatureFlagged => "feature_flagged"
  }

  lemma {:induction false} StringsOfTexts(items: seq<string>)
    ensures Strings(TextList(items)) == items
  {
    if items != [] {
      StringsOfTexts(items[1..]);
      assert TextList(items)[1..] == TextList(items[1..]);
    }
  }

  function Number(value: Option<int>): Option<Json> {
    match value
    case None => None
    case Some(n) => Some(Integer(n))
  }

  /** `m` holds every field of `g` under its own name, and nothing under an absent field's name. */
  predicate Holds(m: map<string, Json>, g: Granted) {
    && Get(m, "license_type") == Some(Text(g.licenseType))
    && Get(m, "features") == Some(if g.features.None? then Null else List(TextList(g.features.value)))
    && Get(m, "offline_grace_days") == Some(Integer(g.offlineGraceDays))
    && Get(m, "custom_metadata") == Some(if g.customMetadata.None? then Null else Object(g.customMetadata.value))
    && Get(m, "seat_count") == Number(g.seatCount)
    && Get(m, "max_activations") == Number(g.maxActivations)
    && Get(m, "trial_ends_at") == Number(g.trialEndsAt)
    && Get(m, "subscription_expires_at") == Number(g.subscriptionExpiresAt)
  }

  /** No tag shadows another. */
  lemma MembersAreHeld(g: Granted)
    ensures Holds(Members(g), g)
  {
    assert "custom_metadata"[0] != "max_activations"[0];
  }

  /** Member order and extra members make no difference to the client. */
  lemma HeldMembersAreSeen(m: map<string, Json>, g: Granted)
    requires Holds(m, g)
    ensures ParseTree(Object(m)) == Some(Seen(g))
  {
    if g.features.Some? {
      StringsOfTexts(g.features.value);
    }
  }

  /**
   Whatever the server prints, the client reads back as it is meant to be seen: the same features in order,
   absent counts and times apart from present zeros, grace days including 0, and the metadata unchanged.
   */
  lemma EntitlementsSurvive(g: Granted)
    ensures ParseTree(ToTree(g)) == Some(Seen(g))
  {
    MembersAreHeld(g);
    HeldMembersAreSeen(Members(g), g);
  }

  /** The licence type survives exactly when it is one of the five the server declares. */
  lemma TypeSurvives(name: string)
    ensures TypeName(TypeOf(name)) == name <==> exists t: LicenseType :: TypeName(t) == name
    ensures forall t: LicenseType :: TypeOf(TypeName(t)) == t
  {
    forall t: LicenseType ensures TypeOf(TypeName(t)) == t {
      match t
      case Perpetual =>
      case Subscription =>
      case FloatingSeat =>
      case Trial =>
      case FeatureFlagged =>
    }
  }

  /** A count the server cannot print but another tree may hold is cut to 32 bits: it survives exactly when it fits. */
  lemma ForeignCountsSurviveIff(members: map<string, Json>, n: nat)
    requires n < TWO_64 && Get(members, "seat_count") == Some(Integer(n))
    ensures ParseTree(Object(members)).Some?
    ensures ParseTree(Object(members)).value.seatCount == Some(n) <==> n < TWO_32
  {
    assert AsU32(Get(members, "seat_count")) == Some(n % TWO_32);
  }

  /** The server can grant anything a client can hold, and it arrives intact. */
  lemma EveryViewIsReachable(e: Entitlements)
    ensures var g := Granted(TypeName(e.licenseType), Some(e.features), e.seatCount, e.maxActivations,
                             e.trialEndsAt, e.subscriptionExpiresAt, e.offlineGraceDays, Some(e.customMetadata));
      ParseTree(ToTree(g)) == Some(e)
  {
    var g := Granted(TypeName(e.licenseType), Some(e.features), e.seatCount, e.maxActivations,
                     e.trialEndsAt, e.subscriptionExpiresAt, e.offlineGraceDays, Some(e.customMetadata));
    EntitlementsSurvive(g);
    TypeSurvives(g.licenseType);
  }
}
