/** Who may do what: the decision of api/src/authz/ability.ts for every role list and every check, as one table. */
module AbilityTable {
  import opened Wrappers
  import opened Abilities
  import opened AbilityFacts

  /** The check names the user's own row, or no row. */
  predicate OwnRow(user: int, q: Query) { q.target.None? || q.target.value.id == user }

  predicate OwnEntry(user: int, q: Query) { q.target.None? || q.target.value.userId == Some(user) }

  /** What a degree opens. */
  predicate MemberMay(user: int, q: Query) {
    match q.subject
    case User =>
      || q.action in [GoogleSync, CreateGoogleContact, UpdateGoogleContact]
      || (q.action in [Show, Edit, Update, UpdateAnnouncementSubscription, UpdateBirthdayCalendarConsent, UpdatePassword] && OwnRow(user, q))
    case EventParticipant => q.action in [Show, Create, Edit, Update] && OwnEntry(user, q)
    case ExternalEventParticipant => q.action in [Show, Create, Edit, Update] && OwnEntry(user, q)
    case Announcement => q.action in [Index, Show]
    case ExternalEvent => q.action in [Index, Show] || (q.action in [AddMe, RemoveMe] && OwnEntry(user, q))
    case AcademicTitle => q.action == Show
    case Event =>
      || q.action in [Index, Show, Upcoming, Date, PublicWorkingplan, InternalWorkingplan]
      || (q.action in [AddMe, RemoveMe] && OwnEntry(user, q))
    case Statistic => q.action in [Index, FileStats, MemStats, Downloads]
    case _ => false
  }

  predicate CouncilMay(q: Query) {
    match q.subject
    case Statistic => q.action in [Index, FileStats, UserStats, UserFileStats, SpaceStats]
    case User => q.action == CsvExport
    case Seeker => q.action in [Index, Show, Accepted, Inactive, Declined]
    case _ => false
  }

  /** What each set of rules opens; most speak about every action on their subjects. */
  predicate BuilderMay(builder: Builder, user: int, q: Query) {
    match builder
    case AdminBuilder => q.subject != All
    case SecretaryBuilder =>
      q.subject in [Event, EventParticipant, ExternalEvent, ExternalEventParticipant, Announcement, Category, Directory,
                    AttachedFile, Lodge, Officer, UserRole, Statistic]
    case MasterBuilder =>
      q.subject in [Event, EventParticipant, ExternalEvent, ExternalEventParticipant, Announcement, Category, Directory,
                    AttachedFile, Lodge, Officer, Seeker]
    case DedicatedMasterBuilder => q.subject == Seeker
    case NetDelegateBuilder => q.subject in [Category, Directory, AttachedFile, UserRole, Statistic]
    case CouncilBuilder => CouncilMay(q)
    case FileAdminBuilder => q.subject in [Category, Directory, AttachedFile]
    case UserAdminBuilder => q.subject == UserRole
    case WorkingPlanBuilder => q.subject in [Event, EventParticipant, ExternalEvent, ExternalEventParticipant]
    case ApplicationAdminBuilder =>
      q.subject in [AppConfig, AcademicTitle, District, Role, User, Category, Lodge, Officer, Event, ExternalEvent]
    case AnnouncementBuilder => q.subject == Announcement
    case MemberBuilder => MemberMay(user, q)
    case NoBuilder => false
  }

  /** What each role opens, by its name; any other name opens nothing. */
  predicate RoleMay(role: string, user: int, q: Query) {
    if role == "Admin" then BuilderMay(AdminBuilder, user, q)
    else if role == "Secretary" then BuilderMay(SecretaryBuilder, user, q)
    else if role == "WorshipfulMaster" then BuilderMay(MasterBuilder, user, q)
    else if role == "DedicatedMaster" then BuilderMay(DedicatedMasterBuilder, user, q)
    else if role == "NetDelegate" then BuilderMay(NetDelegateBuilder, user, q)
    else if role == "MemberOfCouncil" then BuilderMay(CouncilBuilder, user, q)
    else if role == "FileAdmin" then BuilderMay(FileAdminBuilder, user, q)
    else if role == "UserAdmin" then BuilderMay(UserAdminBuilder, user, q)
    else if role == "WorkingPlanAdmin" then BuilderMay(WorkingPlanBuilder, user, q)
    else if role == "ApplicationAdmin" then BuilderMay(ApplicationAdminBuilder, user, q)
    else if role == "AnnouncementAdmin" then BuilderMay(AnnouncementBuilder, user, q)
    else (role == "EnteredApprentice" || role == "FellowCraft" || role == "MasterMason") && BuilderMay(MemberBuilder, user, q)
  }

  /** A list of permissions grants what one of its rules at an index matches. */
  lemma GrantsAt(rules: seq<Rule>, q: Query)
    ensures Grants(rules, q) <==> exists i :: 0 <= i < |rules| && rules[i].allow && Matches(rules[i], q)
  {
    if i :| 0 <= i < |rules| && rules[i].allow && Matches(rules[i], q) { assert rules[i] in rules; }
  }

  lemma GrantsThree(a: Rule, b: Rule, c: Rule, q: Query)
    ensures Grants([a, b, c], q) <==>
              (a.allow && Matches(a, q)) || (b.allow && Matches(b, q)) || (c.allow && Matches(c, q))
  {
    hide Matches;
    GrantsAt([a, b, c], q);
    var s := [a, b, c];
    assert s[0] == a && s[1] == b && s[2] == c;
  }

  lemma CouncilGrants(q: Query)
    ensures Grants(CouncilRules(), q) <==> CouncilMay(q)
  {
    var r := CouncilRules();
    GrantsThree(r[0], r[1], r[2], q);
    assert r == [r[0], r[1], r[2]];
    hide Grants;
  }

  lemma GrantsTwo(a: Rule, b: Rule, q: Query)
    ensures Grants([a, b], q) <==> (a.allow && Matches(a, q)) || (b.allow && Matches(b, q))
  {
    hide Matches;
    GrantsAt([a, b], q);
    var s := [a, b];
    assert s[0] == a && s[1] == b;
  }

  /** The first rules of a degree speak about users and participations, the rest about what everybody looks at. */
  lemma PersonalGrants(user: int, q: Query)
    ensures var d := DefaultRules(user);
            && (Grants(d[..2], q) <==> q.subject == User && MemberMay(user, q))
            && (Grants(d[2..4], q) <==> (q.subject == EventParticipant || q.subject == ExternalEventParticipant) && MemberMay(user, q))
  {
    var d := DefaultRules(user);
    assert d[..2] == [d[0], d[1]] && d[2..4] == [d[2], d[3]];
    hide Grants;
    GrantsTwo(d[0], d[1], q);
    GrantsTwo(d[2], d[3], q);
  }

  lemma SharedGrants(user: int, q: Query)
    ensures var d := DefaultRules(user);
            && (Grants(d[4..7], q) <==> MemberMay(user, q) && q.subject in [Announcement, ExternalEvent, AcademicTitle] && !JoinsOrLeaves(q))
            && (Grants(d[7..9], q) <==> MemberMay(user, q) && JoinsOrLeaves(q))
            && (Grants(d[9..], q) <==> MemberMay(user, q) && q.subject in [Event, Statistic] && !JoinsOrLeaves(q))
  {
    var d := DefaultRules(user);
    assert d[4..7] == [d[4], d[5], d[6]] && d[7..9] == [d[7], d[8]] && d[9..] == [d[9], d[10]];
    hide Grants; hide DefaultRules;
    FirstShared(user, q);
    JoinGrants(user, q);
    LastShared(user, q);
  }

  predicate JoinsOrLeaves(q: Query) { q.action in [AddMe, RemoveMe] && q.subject in [Event, ExternalEvent] }

  lemma FirstShared(user: int, q: Query)
    ensures var d := DefaultRules(user);
            Grants([d[4], d[5], d[6]], q) <==>
              MemberMay(user, q) && q.subject in [Announcement, ExternalEvent, AcademicTitle] && !JoinsOrLeaves(q)
  {
    var d := DefaultRules(user);
    hide Grants;
    GrantsThree(d[4], d[5], d[6], q);
  }

  lemma JoinGrants(user: int, q: Query)
    ensures var d := DefaultRules(user); Grants([d[7], d[8]], q) <==> MemberMay(user, q) && JoinsOrLeaves(q)
  {
    var d := DefaultRules(user);
    hide Grants;
    GrantsTwo(d[7], d[8], q);
  }

  lemma LastShared(user: int, q: Query)
    ensures var d := DefaultRules(user);
            Grants([d[9], d[10]], q) <==> MemberMay(user, q) && q.subject in [Event, Statistic] && !JoinsOrLeaves(q)
  {
    var d := DefaultRules(user);
    hide Grants;
    GrantsTwo(d[9], d[10], q);
  }

  lemma MemberSubjects(user: int, q: Query)
    requires MemberMay(user, q)
    ensures q.subject in [User, EventParticipant, ExternalEventParticipant, Announcement, ExternalEvent, AcademicTitle, Event, Statistic]
  {
  }

  lemma MemberGrants(user: int, q: Query)
    ensures Grants(DefaultRules(user), q) <==> MemberMay(user, q)
  {
    var d := DefaultRules(user);
    assert |d| == 11;
    hide DefaultRules; hide Grants; hide Positive; hide Matches;
    PersonalGrants(user, q);
    SharedGrants(user, q);
    if MemberMay(user, q) { MemberSubjects(user, q); }
    hide MemberMay;
    GrantsInFive(d, q);
  }

  lemma GrantsInFive(d: seq<Rule>, q: Query)
    requires |d| == 11
    ensures Grants(d, q) <==> Grants(d[..2], q) || Grants(d[2..4], q) || Grants(d[4..7], q) || Grants(d[7..9], q) || Grants(d[9..], q)
  {
    hide Grants; hide Positive;
    assert d == d[..2] + (d[2..4] + (d[4..7] + (d[7..9] + d[9..])));
    GrantsAppend(d[..2], d[2..4] + (d[4..7] + (d[7..9] + d[9..])), q);
    GrantsAppend(d[2..4], d[4..7] + (d[7..9] + d[9..]), q);
    GrantsAppend(d[4..7], d[7..9] + d[9..], q);
    GrantsAppend(d[7..9], d[9..], q);
  }

  lemma SmallGrants(q: Query)
    ensures Grants(Manages([Seeker]), q) <==> q.subject == Seeker
    ensures Grants(FileAdminRules(), q) <==> q.subject in [Category, Directory, AttachedFile]
    ensures Grants(UserAdminRules(), q) <==> q.subject == UserRole
    ensures Grants(WorkingPlanRules(), q) <==> q.subject in [Event, EventParticipant, ExternalEvent, ExternalEventParticipant]
    ensures Grants(AnnouncementRules(), q) <==> q.subject == Announcement
    ensures !Grants([], q)
  {
    ManagesGrants([Seeker], q);
    ManagesGrants([Category, Directory, AttachedFile], q);
    ManagesGrants([UserRole], q);
    ManagesGrants([Event, EventParticipant, ExternalEvent, ExternalEventParticipant], q);
    ManagesGrants([Announcement], q);
    NothingGrants(q);
    hide Grants; hide Manages; hide Positive;
  }

  lemma BuilderMayIff(builder: Builder, user: int, q: Query)
    ensures Grants(BuilderRules(builder, user), q) <==> BuilderMay(builder, user, q)
  {
    hide Grants; hide Manages; hide Positive; hide DefaultRules; hide CouncilRules; hide AdminRules; hide MasterRules;
    hide SecretaryRules; hide NetDelegateRules; hide FileAdminRules; hide UserAdminRules; hide WorkingPlanRules;
    hide ApplicationAdminRules; hide AnnouncementRules; hide Matches; hide MemberMay; hide CouncilMay;
    match builder
    case AdminBuilder => AdminGrants(q);
    case SecretaryBuilder => SecretaryGrants(q);
    case MasterBuilder => MasterGrants(q);
    case NetDelegateBuilder => NetDelegateGrants(q);
    case ApplicationAdminBuilder => ApplicationAdminGrants(q);
    case CouncilBuilder => CouncilGrants(q);
    case MemberBuilder => MemberGrants(user, q);
    case _ => SmallGrants(q);
  }

  lemma NamesDispatched(role: string, user: int, q: Query)
    ensures RoleMay(role, user, q) <==> BuilderMay(Dispatch(role), user, q)
  {
    assert !BuilderMay(NoBuilder, user, q);
    hide BuilderMay;
  }

  lemma RoleMayIff(role: string, user: int, q: Query)
    ensures Grants(RoleRules(role, user), q) <==> RoleMay(role, user, q)
  {
    hide Grants; hide BuilderRules; hide BuilderMay; hide RoleMay; hide Dispatch;
    NamesDispatched(role, user, q);
    BuilderMayIff(Dispatch(role), user, q);
  }

  lemma OwnGrants(user: int, q: Query)
    ensures Grants(OwnRules(user), q) <==>
              (q.action == Workingplan && q.subject == Event) || (q.action == AcceptGdpr && q.subject == User && OwnRow(user, q))
  {
    var r := OwnRules(user);
    assert r == [r[0], r[1]];
    hide Grants;
    GrantsTwo(r[0], r[1], q);
  }

  /** Every check of a signed-in user: open to all or to the user as such, or to one of the roles, and not barred. */
  lemma MayIff(user: int, roles: seq<string>, q: Query)
    ensures Can(Rules(Some(user), roles), q) <==>
              && ((q.action == Workingplan && q.subject == Event) || (q.action == AcceptGdpr && q.subject == User && OwnRow(user, q))
                  || exists role :: role in roles && RoleMay(role, user, q))
              && !Barred(user, roles, q)
  {
    DecidedByRoles(user, roles, q);
    OwnGrants(user, q);
    forall role ensures Grants(RoleRules(role, user), q) <==> RoleMay(role, user, q) { RoleMayIff(role, user, q); }
    hide Grants; hide RoleRules; hide RoleMay; hide Rules; hide Can; hide Barred; hide OwnRules;
  }

  /** A profile is open for editing exactly to its owner with a degree, to an Admin and to an ApplicationAdmin. */
  lemma UpdateProfileIff(user: int, roles: seq<string>, t: Target)
    ensures Can(Rules(Some(user), roles), Query(Update, User, Some(t))) <==>
              || "Admin" in roles || "ApplicationAdmin" in roles
              || (t.id == user && ("EnteredApprentice" in roles || "FellowCraft" in roles || "MasterMason" in roles))
  {
    var q := Query(Update, User, Some(t));
    MayIff(user, roles, q);
    forall role
      ensures RoleMay(role, user, q) <==>
                role in ["Admin", "ApplicationAdmin"] || (t.id == user && role in ["EnteredApprentice", "FellowCraft", "MasterMason"])
    {
      UpdateRoles(role, user, t);
    }
    hide Can; hide Rules; hide RoleMay;
  }

  lemma UpdateRoles(role: string, user: int, t: Target)
    ensures RoleMay(role, user, Query(Update, User, Some(t))) <==>
              role in ["Admin", "ApplicationAdmin"] || (t.id == user && role in ["EnteredApprentice", "FellowCraft", "MasterMason"])
  {
  }
}
