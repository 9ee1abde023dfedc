/** How api/src/authz/ability.ts appends its rules, role by role, to one builder. */
module AbilityBuilder {
  import opened Wrappers
  import opened Abilities

  class Grant {
    var rules: seq<Rule>

    constructor ()
      ensures rules == []
    {
      rules := [];
    }

    method Allow(actions: seq<Action>, subject: Subject, condition: Condition)
      modifies this
      ensures rules == old(rules) + [Rule(true, actions, subject, condition)]
    {
      rules := rules + [Rule(true, actions, subject, condition)];
    }

    method Forbid(actions: seq<Action>, subject: Subject, condition: Condition)
      modifies this
      ensures rules == old(rules) + [Rule(false, actions, subject, condition)]
    {
      rules := rules + [Rule(false, actions, subject, condition)];
    }

    /** `can('manage', ...)` for each subject in turn. */
    method AllowManage(subjects: seq<Subject>)
      modifies this
      ensures rules == old(rules) + Manages(subjects)
    {
      for i := 0 to |subjects|
        invariant rules == old(rules) + Manages(subjects[..i])
      {
        assert Manages(subjects[..i + 1]) == Manages(subjects[..i]) + [Rule(true, [Manage], subjects[i], Always)];
        Allow([Manage], subjects[i], Always);
      }
      assert subjects[..|subjects|] == subjects;
    }

    method DefaultUserAbilities(user: int)
      modifies this
      ensures rules == old(rules) + DefaultRules(user)
    {
      Allow([GoogleSync, CreateGoogleContact, UpdateGoogleContact], User, Always);
      Allow([Show, Edit, Update, UpdateAnnouncementSubscription, UpdateBirthdayCalendarConsent, UpdatePassword], User, IdIs(user));
      Allow([Show, Create, Edit, Update], EventParticipant, UserIdIs(user));
      Allow([Show, Create, Edit, Update], ExternalEventParticipant, UserIdIs(user));
      Allow([Index, Show], Announcement, Always);
      Allow([Index, Show], ExternalEvent, Always);
      Allow([Show], AcademicTitle, Always);
      Allow([AddMe, RemoveMe], Event, UserIdIs(user));
      Allow([AddMe, RemoveMe], ExternalEvent, UserIdIs(user));
      Allow([Index, Show, Upcoming, Date, PublicWorkingplan, InternalWorkingplan], Event, Always);
      Allow([Index, FileStats, MemStats, Downloads], Statistic, Always);
    }

    method FileAdminAbilities()
      modifies this
      ensures rules == old(rules) + FileAdminRules()
    {
      AllowManage([Category, Directory, AttachedFile]);
    }

    method UserAdminAbilities()
      modifies this
      ensures rules == old(rules) + UserAdminRules()
    {
      AllowManage([UserRole]);
    }

    method WorkingPlanAdminAbilities()
      modifies this
      ensures rules == old(rules) + WorkingPlanRules()
    {
      AllowManage([Event, EventParticipant, ExternalEvent, ExternalEventParticipant]);
    }

    method LodgesAdminAbilities()
      modifies this
      ensures rules == old(rules) + LodgesRules()
    {
      AllowManage([Lodge, Officer]);
    }

    method AnnouncementAdminAbilities()
      modifies this
      ensures rules == old(rules) + AnnouncementRules()
    {
      AllowManage([Announcement]);
    }

    method ApplicationAdminAbilities()
      modifies this
      ensures rules == old(rules) + ApplicationAdminRules()
    {
      AllowManage([AppConfig, AcademicTitle, District, Role, User, Category, Lodge, Officer, Event, ExternalEvent]);
    }

    method MemberOfCouncilAbilities()
      modifies this
      ensures rules == old(rules) + CouncilRules()
    {
      Allow([Index, FileStats, UserStats, UserFileStats, SpaceStats], Statistic, Always);
      Allow([CsvExport], User, Always);
      Allow([Index, Show, Accepted, Inactive, Declined], Seeker, Always);
    }

    method WorshipfulMasterAbilities()
      modifies this
      ensures rules == old(rules) + MasterRules()
    {
      hide Manages; hide WorkingPlanRules; hide AnnouncementRules; hide FileAdminRules; hide LodgesRules;
      WorkingPlanAdminAbilities();
      AnnouncementAdminAbilities();
      FileAdminAbilities();
      LodgesAdminAbilities();
      AllowManage([Seeker]);
    }

    method NetDelegateAbilities()
      modifies this
      ensures rules == old(rules) + NetDelegateRules()
    {
      hide Manages; hide FileAdminRules; hide UserAdminRules;
      FileAdminAbilities();
      UserAdminAbilities();
      AllowManage([Statistic]);
    }

    method SecretaryAbilities()
      modifies this
      ensures rules == old(rules) + SecretaryRules()
    {
      hide Manages; hide WorkingPlanRules; hide AnnouncementRules; hide FileAdminRules; hide LodgesRules; hide UserAdminRules;
      WorkingPlanAdminAbilities();
      AnnouncementAdminAbilities();
      LodgesAdminAbilities();
      FileAdminAbilities();
      UserAdminAbilities();
      AllowManage([Statistic]);
    }

    method AdminAbilities()
      modifies this
      ensures rules == old(rules) + AdminRules()
    {
      hide Manages; hide MasterRules; hide SecretaryRules; hide NetDelegateRules; hide CouncilRules; hide UserAdminRules;
      hide ApplicationAdminRules;
      WorshipfulMasterAbilities();
      ghost var added := MasterRules();
      SecretaryAbilities();
      added := Longer(old(rules), added, SecretaryRules());
      NetDelegateAbilities();
      added := Longer(old(rules), added, NetDelegateRules());
      UserAdminAbilities();
      added := Longer(old(rules), added, UserAdminRules());
      ApplicationAdminAbilities();
      added := Longer(old(rules), added, ApplicationAdminRules());
      MemberOfCouncilAbilities();
      added := Longer(old(rules), added, CouncilRules());
      AllowManage([Statistic]);
      added := Longer(old(rules), added, Manages([Statistic]));
      Allow([Impersonate], User, Always);
      added := Longer(old(rules), added, [Rule(true, [Impersonate], User, Always)]);
    }

    /** The dispatch table applied to one role name. */
    method ApplyRole(role: string, user: int)
      modifies this
      ensures rules == old(rules) + RoleRules(role, user)
    {
      hide Manages; hide MasterRules; hide SecretaryRules; hide NetDelegateRules; hide CouncilRules; hide AdminRules;
      hide DefaultRules; hide Dispatch; hide FileAdminRules; hide UserAdminRules; hide WorkingPlanRules;
      hide ApplicationAdminRules; hide AnnouncementRules;
      match Dispatch(role)
      case AdminBuilder => AdminAbilities();
      case SecretaryBuilder => SecretaryAbilities();
      case MasterBuilder => WorshipfulMasterAbilities();
      case DedicatedMasterBuilder => AllowManage([Seeker]);
      case NetDelegateBuilder => NetDelegateAbilities();
      case CouncilBuilder => MemberOfCouncilAbilities();
      case FileAdminBuilder => FileAdminAbilities();
      case UserAdminBuilder => UserAdminAbilities();
      case WorkingPlanBuilder => WorkingPlanAdminAbilities();
      case ApplicationAdminBuilder => ApplicationAdminAbilities();
      case AnnouncementBuilder => AnnouncementAdminAbilities();
      case MemberBuilder => DefaultUserAbilities(user);
      case NoBuilder =>
    }

    method ApplyRoles(roles: seq<string>, user: int)
      modifies this
      ensures rules == old(rules) + RolesRules(roles, user)
    {
      hide RoleRules;
      for i := 0 to |roles|
        invariant rules == old(rules) + RolesRules(roles[..i], user)
      {
        assert roles[..i + 1][..i] == roles[..i] && roles[..i + 1][i] == roles[i];
        ApplyRole(roles[i], user);
      }
      assert roles[..|roles|] == roles;
    }

    method ApplyGuard(admin: bool, user: int)
      modifies this
      ensures rules == old(rules) + Guard(admin, user)
    {
      if !admin {
        Forbid([Impersonate], User, Always);
      } else {
        Forbid([Impersonate], User, IsDeleted);
        Forbid([Impersonate], User, IdIs(user));
        Forbid([Impersonate], User, IsAdmin);
      }
    }

    method UserAbilities(user: int, roles: seq<string>)
      modifies this
      ensures rules == old(rules) + [Rule(true, [AcceptGdpr], User, IdIs(user))] + RolesRules(roles, user)
                       + Guard("Admin" in roles, user)
    {
      hide RolesRules; hide Guard;
      Allow([AcceptGdpr], User, IdIs(user));
      ApplyRoles(roles, user);
      ApplyGuard("Admin" in roles, user);
    }
  }

  /** Appending to a list that ends with `added` lengthens `added`. */
  lemma Longer(before: seq<Rule>, added: seq<Rule>, more: seq<Rule>) returns (all: seq<Rule>)
    ensures all == added + more && before + added + more == before + all
  {
    all := added + more;
  }

  /** `buildAbility`: the public rule, the user's own, those of each role in turn, and the impersonation guard last. */
  method BuildAbility(user: Option<int>, roles: seq<string>) returns (g: Grant)
    ensures fresh(g) && g.rules == Rules(user, roles)
  {
    hide RolesRules; hide Guard;
    g := new Grant();
    g.Allow([Workingplan], Event, Always);
    assert g.rules == PUBLIC_RULES;
    if user.Some? { g.UserAbilities(user.value, roles); }
  }
}
