/** `UserSystem` (user-system.js): who is signed in, on which subscription tier, and
    which features that tier opens. The stored user, the join date and the signup
    stamp are parameters; storage itself and the interface are not modelled. */
module Users {
  import opened JsValues
  import opened Text

  datatype Tier = Free | Premium

  /** `{ name, email, tier, isDemo, joinDate, subscriptionId }`; only a premium signup
      sets a subscription id. */
  datatype User = User(
    name: string,
    email: string,
    tier: Tier,
    isDemo: bool,
    joinDate: string,
    subscriptionId: Option<string>)

  /** `subscriptionTiers[tier].name`. */
  function TierName(tier: Tier): string {
    match tier
    case Free => "Free Member"
    case Premium => "Bitcoin Dad Premium"
  }

  /** `subscriptionTiers[tier].features`. */
  function Features(tier: Tier): seq<string> {
    match tier
    case Free => ["View Demo", "Basic Education"]
    case Premium => ["Personal Portfolio Tracking", "Achievement System", "Advanced Analytics", "Community Access"]
  }

  /** `hasFeatureAccess(feature)` for a given signed-in user: nobody signed in opens
      nothing, a free member opens exactly the demo and the basic education, and a
      premium member exactly the four premium features. */
  function FeatureAccess(user: Option<User>, feature: string): (r: bool)
    ensures user.None? ==> !r
    ensures user.Some? && user.value.tier == Free ==> (r <==> feature == "View Demo" || feature == "Basic Education")
    ensures user.Some? && user.value.tier == Premium ==>
      (r <==> feature in {"Personal Portfolio Tracking", "Achievement System", "Advanced Analytics", "Community Access"})
  {
    user.Some? && feature in Features(user.value.tier)
  }

  /** The tiers share no feature: premium does not include the free tier's demo and
      education entries, and free opens none of the premium features. */
  lemma TiersDisjoint(feature: string)
    ensures !(feature in Features(Free) && feature in Features(Premium))
    ensures "View Demo" !in Features(Premium) && "Achievement System" !in Features(Free)
  {
  }

  const DemoName: string := "Demo User"
  const DemoEmail: string := "demo@bitcoindad.com"

  class UserSystem {
    var currentUser: Option<User>

    /** `hasFeatureAccess(feature)`. */
    predicate HasFeatureAccess(feature: string)
      reads this
    {
      FeatureAccess(currentUser, feature)
    }

    /** The constructor and `loadUserFromStorage`: the stored user, or nobody when
        nothing (or nothing readable) is stored. */
    constructor(stored: Option<User>)
      ensures currentUser == stored
    {
      currentUser := stored;
    }

    /** `grantDemoAccess()`: signs in the demo user on the free tier. */
    method GrantDemoAccess(joinDate: string)
      modifies this
      ensures currentUser == Some(User(DemoName, DemoEmail, Free, true, joinDate, None))
      ensures HasFeatureAccess("View Demo") && !HasFeatureAccess("Achievement System")
    {
      currentUser := Some(User(DemoName, DemoEmail, Free, true, joinDate, None));
    }

    /** `processPremiumSignup()` with the two form fields as parameters: a name or email
        that trims to nothing leaves the signed-in user as it was; otherwise the
        trimmed name and email are signed in on the premium tier. `stamp` is the text
        of `Date.now()`. */
    method ProcessPremiumSignup(nameField: string, emailField: string, joinDate: string, stamp: string)
      modifies this
      ensures Trim(nameField) == [] || Trim(emailField) == [] ==> currentUser == old(currentUser)
      ensures Trim(nameField) != [] && Trim(emailField) != [] ==>
        currentUser == Some(User(Trim(nameField), Trim(emailField), Premium, false, joinDate, Some("demo_" + stamp)))
      ensures Trim(nameField) != [] && Trim(emailField) != [] ==> HasFeatureAccess("Achievement System")
    {
      var name := Trim(nameField);
      var email := Trim(emailField);
      if name == [] || email == [] {
        return;
      }
      currentUser := Some(User(name, email, Premium, false, joinDate, Some("demo_" + stamp)));
    }

    /** `logout()`: nobody is signed in, so no feature is open. */
    method Logout()
      modifies this
      ensures currentUser == None
      ensures forall feature :: !HasFeatureAccess(feature)
    {
      currentUser := None;
    }
  }
}
