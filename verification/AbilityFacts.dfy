/** What every role list may do: order, duplicates and additions, impersonation, and the two reach probes. */
module AbilityFacts {
  import opened Wrappers
  import opened Abilities

  const SYNC_PROBE := Query(GoogleSync, User, None)
  const ROLE_PROBE := Query(Manage, UserRole, None)

  lemma ManagesPositive(subjects: seq<Subject>)
    ensures Positive(Manages(subjects))
  {
  }

  lemma PositiveAppend(a: seq<Rule>, b: seq<Rule>)
    requires Positive(a) && Positive(b)
    ensures Positive(a + b)
  {
  }

  lemma MasterPositive()
    ensures Positive(MasterRules())
  {
    forall s ensures Positive(Manages(s)) { ManagesPositive(s); }
    forall a, b | Positive(a) && Positive(b) ensures Positive(a + b) { PositiveAppend(a, b); }
    hide Positive; hide Manages;
  }

  lemma SecretaryPositive()
    ensures Positive(SecretaryRules()) && Positive(NetDelegateRules())
  {
    forall s ensures Positive(Manages(s)) { ManagesPositive(s); }
    forall a, b | Positive(a) && Positive(b) ensures Positive(a + b) { PositiveAppend(a, b); }
    hide Positive; hide Manages;
  }

  lemma AdminPositive()
    ensures Positive(AdminRules())
  {
    MasterPositive();
    SecretaryPositive();
    forall s ensures Positive(Manages(s)) { ManagesPositive(s); }
    forall a, b | Positive(a) && Positive(b) ensures Positive(a + b) { PositiveAppend(a, b); }
    assert Positive([Rule(true, [Impersonate], User, Always)]);
    assert Positive(CouncilRules());
    hide Positive; hide Manages; hide MasterRules; hide SecretaryRules; hide NetDelegateRules; hide CouncilRules;
  }

  lemma RolePositive(role: string, user: int)
    ensures Positive(RoleRules(role, user))
  {
    AdminPositive();
    MasterPositive();
    SecretaryPositive();
    forall s ensures Positive(Manages(s)) { ManagesPositive(s); }
    assert Positive(CouncilRules()) && Positive(DefaultRules(user)) && Positive([]);
    hide Positive; hide Manages; hide MasterRules; hide SecretaryRules; hide NetDelegateRules; hide CouncilRules; hide AdminRules;
    hide DefaultRules; hide Dispatch;
  }

  lemma {:induction false} RolesPositive(roles: seq<string>, user: int)
    ensures Positive(RolesRules(roles, user))
  {
    if roles != [] {
      var n := |roles| - 1;
      RolesPositive(roles[..n], user);
      RolePositive(roles[n], user);
      PositiveAppend(RolesRules(roles[..n], user), RoleRules(roles[n], user));
      hide Positive; hide RoleRules;
    }
  }

  lemma {:induction false} RolesGrant(roles: seq<string>, user: int, q: Query)
    ensures Grants(RolesRules(roles, user), q) <==> exists role :: role in roles && Grants(RoleRules(role, user), q)
  {
    hide Grants; hide RoleRules;
    if roles == [] {
      NothingGrants(q);
    } else {
      var n := |roles| - 1;
      RolesGrant(roles[..n], user, q);
      GrantsAppend(RolesRules(roles[..n], user), RoleRules(roles[n], user), q);
      assert roles == roles[..n] + [roles[n]];
      hide Positive;
    }
  }

  lemma NothingGrants(q: Query)
    ensures !Grants([], q)
  {
  }

  /** Impersonation is barred for anyone but an admin, and for the rows the guard names. */
  predicate Barred(user: int, roles: seq<string>, q: Query) {
    q.action == Impersonate && q.subject == User
    && ("Admin" !in roles
        || (q.target.Some? && (q.target.value.deleted == Some(true) || q.target.value.id == user || q.target.value.admin)))
  }

  lemma GuardDecides(user: int, roles: seq<string>, rules: seq<Rule>, q: Query)
    ensures Can(rules + Guard("Admin" in roles, user), q) <==> Can(rules, q) && !Barred(user, roles, q)
  {
    var g := Guard("Admin" in roles, user);
    NewestFirst(rules, g, q);
    assert forall r :: r in g ==> !r.allow && r.subject == User && r.actions == [Impersonate];
    assert g[0] in g && ("Admin" in roles ==> g[1] in g && g[2] in g);
    NeverAllows(g, q);
    assert (exists r :: r in g && Matches(r, q)) <==> Barred(user, roles, q);
  }

  lemma {:induction false} NeverAllows(rules: seq<Rule>, q: Query)
    requires forall r :: r in rules ==> !r.allow
    ensures !Can(rules, q)
  {
    if rules != [] {
      assert rules[|rules| - 1] in rules;
      NeverAllows(rules[..|rules| - 1], q);
    }
  }

  function OwnRules(user: int): seq<Rule> { PUBLIC_RULES + [Rule(true, [AcceptGdpr], User, IdIs(user))] }

  /** The decision in terms of the roles: something grants it and the guard does not bar it. */
  lemma DecidedByRoles(user: int, roles: seq<string>, q: Query)
    ensures Can(Rules(Some(user), roles), q) <==>
              (Grants(OwnRules(user), q) || exists role :: role in roles && Grants(RoleRules(role, user), q))
              && !Barred(user, roles, q)
  {
    var own, more := OwnRules(user), RolesRules(roles, user);
    assert Positive(own);
    RolesGrant(roles, user, q);
    RolesPositive(roles, user);
    GrantsAppend(own, more, q);
    PositiveDecides(own + more, q);
    GuardDecides(user, roles, own + more, q);
    hide Grants; hide RoleRules; hide Positive; hide Can; hide Barred; hide Guard;
    assert Rules(Some(user), roles) == own + more + Guard("Admin" in roles, user);
  }

  /** Additional roles never take anything away. */
  lemma Monotone(user: int, fewer: seq<string>, more: seq<string>, q: Query)
    requires forall role :: role in fewer ==> role in more
    ensures Can(Rules(Some(user), fewer), q) ==> Can(Rules(Some(user), more), q)
  {
    DecidedByRoles(user, fewer, q);
    DecidedByRoles(user, more, q);
    hide Grants; hide RoleRules; hide Can; hide Rules;
  }

  /** Order and repetition of the roles do not matter. */
  lemma OnlyTheSetOfRolesMatters(user: int, a: seq<string>, b: seq<string>, q: Query)
    requires forall role :: role in a <==> role in b
    ensures Can(Rules(Some(user), a), q) <==> Can(Rules(Some(user), b), q)
  {
    Monotone(user, a, b, q);
    Monotone(user, b, a, q);
  }

  lemma AdminImpersonates(user: int, target: Option<Target>)
    ensures Grants(RoleRules("Admin", user), Query(Impersonate, User, target))
  {
    var r := Rule(true, [Impersonate], User, Always);
    assert r in AdminRules();
  }

  /** Impersonation of a row: exactly an admin, of somebody else who is neither deleted nor an admin. */
  lemma ImpersonationIff(user: int, roles: seq<string>, t: Target)
    ensures Can(Rules(Some(user), roles), Query(Impersonate, User, Some(t))) <==>
              "Admin" in roles && t.deleted != Some(true) && t.id != user && !t.admin
  {
    DecidedByRoles(user, roles, Query(Impersonate, User, Some(t)));
    AdminImpersonates(user, Some(t));
    hide Grants; hide RoleRules; hide Can; hide Rules;
  }

  // ----- the reach probes -------------------------------------------------

  predicate ReachesDefault(role: string) {
    role == "EnteredApprentice" || role == "FellowCraft" || role == "MasterMason" || role == "Admin" || role == "ApplicationAdmin"
  }

  predicate ReachesUserAdmin(role: string) {
    role == "UserAdmin" || role == "Secretary" || role == "NetDelegate" || role == "Admin"
  }

  lemma ListGrants(rules: seq<Rule>, q: Query)
    requires forall r :: r in rules ==> r.subject != q.subject || (q.action !in r.actions && Manage !in r.actions)
    ensures !Grants(rules, q)
  {
  }

  lemma MasterGrants(q: Query)
    ensures Grants(MasterRules(), q) <==>
              q.subject in [Event, EventParticipant, ExternalEvent, ExternalEventParticipant, Announcement, Category, Directory,
                            AttachedFile, Lodge, Officer, Seeker]
  {
    hide Grants; hide Manages;
    ManagesGrants([Event, EventParticipant, ExternalEvent, ExternalEventParticipant], q);
    ManagesGrants([Announcement], q);
    ManagesGrants([Category, Directory, AttachedFile], q);
    ManagesGrants([Lodge, Officer], q);
    ManagesGrants([Seeker], q);
    GrantsAppend(WorkingPlanRules(), AnnouncementRules(), q);
    GrantsAppend(WorkingPlanRules() + AnnouncementRules(), FileAdminRules(), q);
    GrantsAppend(WorkingPlanRules() + AnnouncementRules() + FileAdminRules(), LodgesRules(), q);
    GrantsAppend(WorkingPlanRules() + AnnouncementRules() + FileAdminRules() + LodgesRules(), Manages([Seeker]), q);
  }

  lemma NetDelegateGrants(q: Query)
    ensures Grants(NetDelegateRules(), q) <==> q.subject in [Category, Directory, AttachedFile, UserRole, Statistic]
  {
    hide Grants; hide Manages;
    ManagesGrants([Category, Directory, AttachedFile], q);
    ManagesGrants([UserRole], q);
    ManagesGrants([Statistic], q);
    GrantsAppend(FileAdminRules(), UserAdminRules(), q);
    GrantsAppend(FileAdminRules() + UserAdminRules(), Manages([Statistic]), q);
  }

  lemma SecretaryGrants(q: Query)
    ensures Grants(SecretaryRules(), q) <==>
              q.subject in [Event, EventParticipant, ExternalEvent, ExternalEventParticipant, Announcement, Category, Directory,
                            AttachedFile, Lodge, Officer, UserRole, Statistic]
  {
    hide Grants; hide Manages;
    ManagesGrants([Event, EventParticipant, ExternalEvent, ExternalEventParticipant], q);
    ManagesGrants([Announcement], q);
    ManagesGrants([Lodge, Officer], q);
    ManagesGrants([Category, Directory, AttachedFile], q);
    ManagesGrants([UserRole], q);
    ManagesGrants([Statistic], q);
    GrantsAppend(WorkingPlanRules(), AnnouncementRules(), q);
    GrantsAppend(WorkingPlanRules() + AnnouncementRules(), LodgesRules(), q);
    GrantsAppend(WorkingPlanRules() + AnnouncementRules() + LodgesRules(), FileAdminRules(), q);
    GrantsAppend(WorkingPlanRules() + AnnouncementRules() + LodgesRules() + FileAdminRules(), UserAdminRules(), q);
    GrantsAppend(WorkingPlanRules() + AnnouncementRules() + LodgesRules() + FileAdminRules() + UserAdminRules(), Manages([Statistic]), q);
  }

  lemma ApplicationAdminGrants(q: Query)
    ensures Grants(ApplicationAdminRules(), q) <==>
              q.subject in [AppConfig, AcademicTitle, District, Role, User, Category, Lodge, Officer, Event, ExternalEvent]
  {
    ManagesGrants([AppConfig, AcademicTitle, District, Role, User, Category, Lodge, Officer, Event, ExternalEvent], q);
    hide Grants; hide Manages;
  }

  /** Eight lists together grant what one of them grants. */
  lemma EightGrant(a: seq<Rule>, b: seq<Rule>, c: seq<Rule>, d: seq<Rule>, e: seq<Rule>, f: seq<Rule>, g: seq<Rule>, h: seq<Rule>, q: Query)
    ensures Grants(a + b + c + d + e + f + g + h, q) <==>
              Grants(a, q) || Grants(b, q) || Grants(c, q) || Grants(d, q) || Grants(e, q) || Grants(f, q) || Grants(g, q) || Grants(h, q)
  {
    hide Grants; hide Positive;
    GrantsAppend(a, b, q);
    GrantsAppend(a + b, c, q);
    GrantsAppend(a + b + c, d, q);
    GrantsAppend(a + b + c + d, e, q);
    GrantsAppend(a + b + c + d + e, f, q);
    GrantsAppend(a + b + c + d + e + f, g, q);
    GrantsAppend(a + b + c + d + e + f + g, h, q);
  }

  lemma LastAdminRules(q: Query)
    requires q.subject == All
    ensures !Grants(CouncilRules(), q) && !Grants([Rule(true, [Impersonate], User, Always)], q)
  {
    ListGrants(CouncilRules(), q);
    ListGrants([Rule(true, [Impersonate], User, Always)], q);
  }

  /** The admin rules speak about every subject but `All`, and about each of those with every action. */
  lemma AdminGrants(q: Query)
    ensures Grants(AdminRules(), q) <==> q.subject != All
  {
    EightGrant(MasterRules(), SecretaryRules(), NetDelegateRules(), UserAdminRules(), ApplicationAdminRules(), CouncilRules(),
               Manages([Statistic]), [Rule(true, [Impersonate], User, Always)], q);
    hide Grants; hide Manages; hide Matches; hide CouncilRules; hide ApplicationAdminRules; hide NetDelegateRules;
    hide SecretaryRules; hide MasterRules; hide Positive;
    MasterGrants(q);
    NetDelegateGrants(q);
    ApplicationAdminGrants(q);
    if q.subject == All {
      SecretaryGrants(q);
      ManagesGrants([UserRole], q);
      ManagesGrants([Statistic], q);
      LastAdminRules(q);
    }
  }

  /** With the Admin role every check succeeds, on any subject but `All`, unless the guard bars it. */
  lemma AdminMayAllButBarred(user: int, roles: seq<string>, q: Query)
    requires "Admin" in roles
    ensures Can(Rules(Some(user), roles), q) <==> q.subject != All && !Barred(user, roles, q)
  {
    DecidedByRoles(user, roles, q);
    AdminGrants(q);
    assert Grants(RoleRules("Admin", user), q) <==> Grants(AdminRules(), q);
    hide Can; hide Rules; hide Barred; hide AdminRules;
    if q.subject == All {
      ListGrants(OwnRules(user), q);
      forall role ensures !Grants(RoleRules(role, user), q) { NoRoleReachesAll(role, user, q); }
    }
    hide Grants; hide RoleRules;
  }

  lemma NoRoleReachesAll(role: string, user: int, q: Query)
    requires q.subject == All
    ensures !Grants(RoleRules(role, user), q)
  {
    NoBuilderReachesAll(Dispatch(role), user, q);
    hide Grants; hide BuilderRules; hide Dispatch;
  }

  lemma NoBuilderReachesAll(builder: Builder, user: int, q: Query)
    requires q.subject == All
    ensures !Grants(BuilderRules(builder, user), q)
  {
    hide Grants; hide Manages; hide Positive; hide DefaultRules; hide CouncilRules; hide AdminRules; hide MasterRules;
    hide SecretaryRules; hide NetDelegateRules; hide FileAdminRules; hide UserAdminRules; hide WorkingPlanRules;
    hide ApplicationAdminRules; hide AnnouncementRules; hide Matches;
    match builder
    case AdminBuilder => AdminGrants(q);
    case SecretaryBuilder => SecretaryGrants(q);
    case MasterBuilder => MasterGrants(q);
    case NetDelegateBuilder => NetDelegateGrants(q);
    case ApplicationAdminBuilder => ApplicationAdminGrants(q);
    case CouncilBuilder => LastAdminRules(q);
    case MemberBuilder => DefaultReachesNotAll(user, q);
    case _ => SmallReachNotAll(q);
  }

  lemma DefaultReachesNotAll(user: int, q: Query)
    requires q.subject == All
    ensures !Grants(DefaultRules(user), q)
  {
    ListGrants(DefaultRules(user), q);
  }

  lemma SmallReachNotAll(q: Query)
    requires q.subject == All
    ensures !Grants(Manages([Seeker]), q) && !Grants(FileAdminRules(), q) && !Grants(UserAdminRules(), q)
    ensures !Grants(WorkingPlanRules(), q) && !Grants(AnnouncementRules(), q) && !Grants([], q)
  {
    forall subjects ensures Grants(Manages(subjects), q) <==> q.subject in subjects { ManagesGrants(subjects, q); }
    ListGrants([], q);
    hide Grants; hide Manages;
  }

  lemma BuilderProbes(builder: Builder, user: int)
    ensures Grants(BuilderRules(builder, user), SYNC_PROBE) <==>
              builder.MemberBuilder? || builder.AdminBuilder? || builder.ApplicationAdminBuilder?
    ensures Grants(BuilderRules(builder, user), ROLE_PROBE) <==>
              builder.UserAdminBuilder? || builder.SecretaryBuilder? || builder.NetDelegateBuilder? || builder.AdminBuilder?
  {
    hide Grants; hide Manages; hide DefaultRules; hide CouncilRules; hide AdminRules; hide MasterRules; hide SecretaryRules;
    hide NetDelegateRules; hide FileAdminRules; hide UserAdminRules; hide WorkingPlanRules; hide ApplicationAdminRules;
    hide AnnouncementRules;
    match builder
    case AdminBuilder => AdminGrants(SYNC_PROBE); AdminGrants(ROLE_PROBE);
    case SecretaryBuilder => SecretaryGrants(SYNC_PROBE); SecretaryGrants(ROLE_PROBE);
    case MasterBuilder => MasterGrants(SYNC_PROBE); MasterGrants(ROLE_PROBE);
    case NetDelegateBuilder => NetDelegateGrants(SYNC_PROBE); NetDelegateGrants(ROLE_PROBE);
    case CouncilBuilder => CouncilProbes();
    case MemberBuilder => MemberProbes(user);
    case _ => PlainProbes();
  }

  lemma CouncilProbes()
    ensures !Grants(CouncilRules(), SYNC_PROBE) && !Grants(CouncilRules(), ROLE_PROBE)
  {
    ListGrants(CouncilRules(), SYNC_PROBE);
    ListGrants(CouncilRules(), ROLE_PROBE);
  }

  lemma DefaultSubjects(user: int)
    ensures forall r :: r in DefaultRules(user) ==> r.subject != UserRole
  {
  }

  lemma FirstDefault(user: int)
    ensures var r := Rule(true, [GoogleSync, CreateGoogleContact, UpdateGoogleContact], User, Always); r in DefaultRules(user)
  {
    assert DefaultRules(user)[0] in DefaultRules(user);
  }

  lemma MemberProbes(user: int)
    ensures Grants(DefaultRules(user), SYNC_PROBE) && !Grants(DefaultRules(user), ROLE_PROBE)
  {
    DefaultSubjects(user);
    FirstDefault(user);
    hide DefaultRules;
    ListGrants(DefaultRules(user), ROLE_PROBE);
    var r := Rule(true, [GoogleSync, CreateGoogleContact, UpdateGoogleContact], User, Always);
    assert Matches(r, SYNC_PROBE);
  }

  lemma RoleProbes(role: string, user: int)
    ensures Grants(RoleRules(role, user), SYNC_PROBE) <==> ReachesDefault(role)
    ensures Grants(RoleRules(role, user), ROLE_PROBE) <==> ReachesUserAdmin(role)
  {
    BuilderProbes(Dispatch(role), user);
    hide Grants; hide BuilderRules;
  }

  lemma PlainProbes()
    ensures !Grants(Manages([Seeker]), SYNC_PROBE) && !Grants(Manages([Seeker]), ROLE_PROBE)
    ensures !Grants(FileAdminRules(), SYNC_PROBE) && !Grants(FileAdminRules(), ROLE_PROBE)
    ensures !Grants(UserAdminRules(), SYNC_PROBE) && Grants(UserAdminRules(), ROLE_PROBE)
    ensures !Grants(WorkingPlanRules(), SYNC_PROBE) && !Grants(WorkingPlanRules(), ROLE_PROBE)
    ensures Grants(ApplicationAdminRules(), SYNC_PROBE) && !Grants(ApplicationAdminRules(), ROLE_PROBE)
    ensures !Grants(AnnouncementRules(), SYNC_PROBE) && !Grants(AnnouncementRules(), ROLE_PROBE)
    ensures !Grants([], SYNC_PROBE) && !Grants([], ROLE_PROBE)
  {
    forall subjects, q ensures Grants(Manages(subjects), q) <==> q.subject in subjects { ManagesGrants(subjects, q); }
    ListGrants([], SYNC_PROBE);
    ListGrants([], ROLE_PROBE);
    hide Grants; hide Manages;
  }

  /** The probe for the default abilities succeeds for exactly the roles the members module names. */
  lemma DefaultReachIff(user: int, roles: seq<string>)
    ensures Can(Rules(Some(user), roles), SYNC_PROBE) <==> exists role :: role in roles && ReachesDefault(role)
  {
    DecidedByRoles(user, roles, SYNC_PROBE);
    forall role ensures Grants(RoleRules(role, user), SYNC_PROBE) <==> ReachesDefault(role) { RoleProbes(role, user); }
    ListGrants(OwnRules(user), SYNC_PROBE);
    hide Grants; hide RoleRules; hide Can; hide Rules; hide ReachesDefault;
  }

  /** The probe for the user-admin abilities likewise. */
  lemma UserAdminReachIff(user: int, roles: seq<string>)
    ensures Can(Rules(Some(user), roles), ROLE_PROBE) <==> exists role :: role in roles && ReachesUserAdmin(role)
  {
    DecidedByRoles(user, roles, ROLE_PROBE);
    forall role ensures Grants(RoleRules(role, user), ROLE_PROBE) <==> ReachesUserAdmin(role) { RoleProbes(role, user); }
    ListGrants(OwnRules(user), ROLE_PROBE);
    hide Grants; hide RoleRules; hide Can; hide Rules; hide ReachesUserAdmin;
  }

  /** Without a user only the public working plan is open. */
  lemma AnonymousIff(q: Query)
    ensures Can(Rules(None, []), q) <==> q.action == Workingplan && q.subject == Event
  {
    assert PUBLIC_RULES[..0] == [];
  }
}
