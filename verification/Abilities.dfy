/** The rule list of api/src/authz/ability.ts and the decisions a last-match-wins ability makes with it. */
module Abilities {
  import opened Wrappers

  datatype Action =
    | Manage | GoogleSync | CreateGoogleContact | UpdateGoogleContact | Show | Edit | Update
    | UpdateAnnouncementSubscription | UpdateBirthdayCalendarConsent | UpdatePassword | Create | Index | AddMe | RemoveMe
    | Upcoming | Date | PublicWorkingplan | InternalWorkingplan | Download | MembersList | PhoneList | BirthdayList
    | MembersOfCouncil | FileIoLink | FileStats | MemStats | Downloads | Destroy | CsvExport | UserStats | UserFileStats
    | SpaceStats | Accepted | Inactive | Declined | Workingplan | AcceptGdpr | Impersonate

  datatype Subject =
    | User | EventParticipant | ExternalEventParticipant | Announcement | ExternalEvent | AcademicTitle | Event | Category
    | Directory | AttachedFile | Statistic | UserRole | Seeker | AppConfig | District | Role | Lodge | Officer | All

  datatype Condition = Always | IdIs(id: int) | UserIdIs(id: int) | IsDeleted | IsAdmin

  datatype Rule = Rule(allow: bool, actions: seq<Action>, subject: Subject, condition: Condition)

  /** The fields of a checked row that conditions look at. */
  datatype Target = Target(id: int, userId: Option<int>, deleted: Option<bool>, admin: bool)

  /** A check of an action on a subject type, or on one row of it. */
  datatype Query = Query(action: Action, subject: Subject, target: Option<Target>)

  predicate Holds(c: Condition, t: Target) {
    match c
    case Always => true
    case IdIs(id) => t.id == id
    case UserIdIs(id) => t.userId == Some(id)
    case IsDeleted => t.deleted == Some(true)
    case IsAdmin => t.admin
  }

  /** A `manage` rule speaks about every action; a condition cannot be looked at without a row, and then counts as
      met for a permission and as not met for a prohibition. */
  predicate Matches(r: Rule, q: Query) {
    && (q.action in r.actions || Manage in r.actions) && r.subject == q.subject
    && (r.condition.Always? || if q.target.None? then r.allow else Holds(r.condition, q.target.value))
  }

  /** The newest matching rule decides. */
  predicate Can(rules: seq<Rule>, q: Query) {
    if rules == [] then false
    else
      var last := rules[|rules| - 1];
      if Matches(last, q) then last.allow else Can(rules[..|rules| - 1], q)
  }

  // ----- the rules of the roles -------------------------------------------

  function Manages(subjects: seq<Subject>): seq<Rule> {
    seq(|subjects|, i requires 0 <= i < |subjects| => Rule(true, [Manage], subjects[i], Always))
  }

  function DefaultRules(user: int): seq<Rule> {
    [ Rule(true, [GoogleSync, CreateGoogleContact, UpdateGoogleContact], User, Always),
      Rule(true, [Show, Edit, Update, UpdateAnnouncementSubscription, UpdateBirthdayCalendarConsent, UpdatePassword], User, IdIs(user)),
      Rule(true, [Show, Create, Edit, Update], EventParticipant, UserIdIs(user)),
      Rule(true, [Show, Create, Edit, Update], ExternalEventParticipant, UserIdIs(user)),
      Rule(true, [Index, Show], Announcement, Always),
      Rule(true, [Index, Show], ExternalEvent, Always),
      Rule(true, [Show], AcademicTitle, Always),
      Rule(true, [AddMe, RemoveMe], Event, UserIdIs(user)),
      Rule(true, [AddMe, RemoveMe], ExternalEvent, UserIdIs(user)),
      Rule(true, [Index, Show, Upcoming, Date, PublicWorkingplan, InternalWorkingplan], Event, Always),
      Rule(true, [Index, FileStats, MemStats, Downloads], Statistic, Always) ]
  }

  function FileAdminRules(): seq<Rule> { Manages([Category, Directory, AttachedFile]) }

  function UserAdminRules(): seq<Rule> { Manages([UserRole]) }

  function WorkingPlanRules(): seq<Rule> { Manages([Event, EventParticipant, ExternalEvent, ExternalEventParticipant]) }

  function LodgesRules(): seq<Rule> { Manages([Lodge, Officer]) }

  function AnnouncementRules(): seq<Rule> { Manages([Announcement]) }

  function ApplicationAdminRules(): seq<Rule> {
    Manages([AppConfig, AcademicTitle, District, Role, User, Category, Lodge, Officer, Event, ExternalEvent])
  }

  function CouncilRules(): seq<Rule> {
    [ Rule(true, [Index, FileStats, UserStats, UserFileStats, SpaceStats], Statistic, Always),
      Rule(true, [CsvExport], User, Always),
      Rule(true, [Index, Show, Accepted, Inactive, Declined], Seeker, Always) ]
  }

  function MasterRules(): seq<Rule> {
    WorkingPlanRules() + AnnouncementRules() + FileAdminRules() + LodgesRules() + Manages([Seeker])
  }

  function NetDelegateRules(): seq<Rule> { FileAdminRules() + UserAdminRules() + Manages([Statistic]) }

  function SecretaryRules(): seq<Rule> {
    WorkingPlanRules() + AnnouncementRules() + LodgesRules() + FileAdminRules() + UserAdminRules() + Manages([Statistic])
  }

  function AdminRules(): seq<Rule> {
    MasterRules() + SecretaryRules() + NetDelegateRules() + UserAdminRules() + ApplicationAdminRules() + CouncilRules()
    + Manages([Statistic]) + [Rule(true, [Impersonate], User, Always)]
  }

  /** The entries of the dispatch table. */
  datatype Builder =
    | AdminBuilder | SecretaryBuilder | MasterBuilder | DedicatedMasterBuilder | NetDelegateBuilder | CouncilBuilder
    | FileAdminBuilder | UserAdminBuilder | WorkingPlanBuilder | ApplicationAdminBuilder | AnnouncementBuilder | MemberBuilder
    | NoBuilder

  function Dispatch(role: string): Builder {
    if role == "Admin" then AdminBuilder
    else if role == "Secretary" then SecretaryBuilder
    else if role == "WorshipfulMaster" then MasterBuilder
    else if role == "DedicatedMaster" then DedicatedMasterBuilder
    else if role == "NetDelegate" then NetDelegateBuilder
    else if role == "MemberOfCouncil" then CouncilBuilder
    else if role == "FileAdmin" then FileAdminBuilder
    else if role == "UserAdmin" then UserAdminBuilder
    else if role == "WorkingPlanAdmin" then WorkingPlanBuilder
    else if role == "ApplicationAdmin" then ApplicationAdminBuilder
    else if role == "AnnouncementAdmin" then AnnouncementBuilder
    else if role == "EnteredApprentice" || role == "FellowCraft" || role == "MasterMason" then MemberBuilder
    else NoBuilder
  }

  function BuilderRules(builder: Builder, user: int): seq<Rule> {
    match builder
    case AdminBuilder => AdminRules()
    case SecretaryBuilder => SecretaryRules()
    case MasterBuilder => MasterRules()
    case DedicatedMasterBuilder => Manages([Seeker])
    case NetDelegateBuilder => NetDelegateRules()
    case CouncilBuilder => CouncilRules()
    case FileAdminBuilder => FileAdminRules()
    case UserAdminBuilder => UserAdminRules()
    case WorkingPlanBuilder => WorkingPlanRules()
    case ApplicationAdminBuilder => ApplicationAdminRules()
    case AnnouncementBuilder => AnnouncementRules()
    case MemberBuilder => DefaultRules(user)
    case NoBuilder => []
  }

  /** The rules a role adds; an unknown role adds none. */
  function RoleRules(role: string, user: int): seq<Rule> { BuilderRules(Dispatch(role), user) }

  function RolesRules(roles: seq<string>, user: int): seq<Rule> {
    if roles == [] then [] else RolesRules(roles[..|roles| - 1], user) + RoleRules(roles[|roles| - 1], user)
  }

  /** The prohibitions that always come last. */
  function Guard(admin: bool, user: int): seq<Rule> {
    if !admin then [Rule(false, [Impersonate], User, Always)]
    else
      [ Rule(false, [Impersonate], User, IsDeleted),
        Rule(false, [Impersonate], User, IdIs(user)),
        Rule(false, [Impersonate], User, IsAdmin) ]
  }

  const PUBLIC_RULES := [Rule(true, [Workingplan], Event, Always)]

  function Rules(user: Option<int>, roles: seq<string>): seq<Rule> {
    if user.None? then PUBLIC_RULES
    else
      PUBLIC_RULES + [Rule(true, [AcceptGdpr], User, IdIs(user.value))] + RolesRules(roles, user.value)
      + Guard("Admin" in roles, user.value)
  }

  // ----- decisions --------------------------------------------------------

  ghost predicate Grants(rules: seq<Rule>, q: Query) {
    exists r :: r in rules && r.allow && Matches(r, q)
  }

  ghost predicate Positive(rules: seq<Rule>) {
    forall r :: r in rules ==> r.allow
  }

  lemma {:induction false} PositiveDecides(rules: seq<Rule>, q: Query)
    requires Positive(rules)
    ensures Can(rules, q) <==> Grants(rules, q)
  {
    if rules != [] {
      var n := |rules| - 1;
      PositiveDecides(rules[..n], q);
      assert rules[n] in rules;
      assert rules == rules[..n] + [rules[n]];
    }
  }

  lemma {:induction false} NewestFirst(rules: seq<Rule>, last: seq<Rule>, q: Query)
    ensures Can(rules + last, q) <==> if exists r :: r in last && Matches(r, q) then Can(last, q) else Can(rules, q)
  {
    if last == [] {
      assert rules + last == rules;
    } else {
      var n := |last| - 1;
      assert (rules + last)[..|rules + last| - 1] == rules + last[..n] && (rules + last)[|rules + last| - 1] == last[n];
      NewestFirst(rules, last[..n], q);
      assert last == last[..n] + [last[n]];
      assert last[n] in last;
    }
  }

  lemma ManagesGrants(subjects: seq<Subject>, q: Query)
    ensures Grants(Manages(subjects), q) <==> q.subject in subjects
    ensures Positive(Manages(subjects))
  {
    if i :| 0 <= i < |subjects| && subjects[i] == q.subject {
      assert Manages(subjects)[i] in Manages(subjects) && Matches(Manages(subjects)[i], q);
    }
  }

  lemma GrantsAppend(a: seq<Rule>, b: seq<Rule>, q: Query)
    ensures Grants(a + b, q) <==> Grants(a, q) || Grants(b, q)
    ensures Positive(a + b) <==> Positive(a) && Positive(b)
  {
    forall r ensures r in a + b <==> r in a || r in b { }
    if Positive(a + b) {
      assert forall r :: r in a ==> r in a + b;
      assert forall r :: r in b ==> r in a + b;
    }
  }
}
