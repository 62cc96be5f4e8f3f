/** Organization service rules: validating an organization's custom provider,
    adding a member (an ADMIN becomes OWNER of every project of the
    organization), and inviting a member by e-mail. The database is the state
    of an OrganizationService object; each table is a field. */
module Organization {
  import opened Wrappers

  /** ADMIN, or any other organization role, by name. */
  datatype OrganizationRole = Admin | OtherOrganizationRole(name: string)

  /** OWNER, or any other project role, by name. */
  datatype ProjectRole = Owner | OtherProjectRole(name: string)

  datatype OrganizationMember = OrganizationMember(orgId: int, userId: int, role: OrganizationRole)

  datatype Project = Project(id: int, orgId: int)

  datatype ProjectMember = ProjectMember(projectId: int, userId: int, role: ProjectRole)

  datatype Invitation = Invitation(orgId: int, email: string, role: OrganizationRole, token: string)

  /** A created invitation and the link sent with it. */
  datatype InvitationLink = InvitationLink(invitation: Invitation, inviteUrl: string)

  // ---------------------------------------------------------------------------
  // Custom provider validation.

  /** An organization's custom provider row; the base URL and the name may be
      missing. */
  datatype CustomProvider = CustomProvider(id: int, key: string, baseUrl: Option<string>, name: Option<string>)

  /** A provider known to have a base URL. */
  datatype ValidatedProvider = ValidatedProvider(id: int, key: string, baseUrl: string, name: Option<string>)

  datatype ProviderError = ProviderNotConfigured | ProviderNoBaseUrl

  /** The message each provider error is raised with. */
  function ProviderErrorMessage(e: ProviderError): string
  {
    match e
    case ProviderNotConfigured => "Custom provider not configured"
    case ProviderNoBaseUrl => "Provider has no base URL configured"
  }

  /** A caller can tell the two provider errors apart by their messages. */
  lemma ProviderErrorMessagesDistinct(a: ProviderError, b: ProviderError)
    ensures ProviderErrorMessage(a) == ProviderErrorMessage(b) <==> a == b
  {
    if a != b {
      assert ProviderErrorMessage(a)[0] != ProviderErrorMessage(b)[0];
    }
  }

  /** A base URL counts as missing when it is absent or empty. */
  predicate HasBaseUrl(p: CustomProvider)
  {
    p.baseUrl.Some? && p.baseUrl.value != ""
  }

  /** The provider found for the organization, when there is one and it has a
      base URL; a missing provider is reported before a missing base URL. */
  function ValidateCustomProvider(found: Option<CustomProvider>): (r: Result<ValidatedProvider, ProviderError>)
    ensures r == Err(ProviderNotConfigured) <==> found.None?
    ensures r == Err(ProviderNoBaseUrl) <==> found.Some? && !HasBaseUrl(found.value)
    ensures r.Ok? ==> found.Some? && r.value.baseUrl != "" && Unvalidate(r.value) == found.value
  {
    match found
    case None => Err(ProviderNotConfigured)
    case Some(p) =>
      if !HasBaseUrl(p) then Err(ProviderNoBaseUrl)
      else Ok(ValidatedProvider(p.id, p.key, p.baseUrl.value, p.name))
  }

  /** The provider row a validated provider was copied from. */
  function Unvalidate(v: ValidatedProvider): CustomProvider
  {
    CustomProvider(v.id, v.key, Some(v.baseUrl), v.name)
  }

  /** Every provider with a base URL validates, and validation copies all four
      fields. */
  lemma ValidProviderAccepted(p: CustomProvider)
    requires HasBaseUrl(p)
    ensures ValidateCustomProvider(Some(p)) == Ok(ValidatedProvider(p.id, p.key, p.baseUrl.value, p.name))
  {
  }

  // ---------------------------------------------------------------------------
  // Projects and memberships.

  /** The projects of an organization, in table order. */
  function ProjectsOf(projects: seq<Project>, orgId: int): (ps: seq<Project>)
    ensures forall p :: p in ps <==> p in projects && p.orgId == orgId
    ensures |ps| <= |projects|
  {
    if projects == [] then []
    else (if projects[0].orgId == orgId then [projects[0]] else []) + ProjectsOf(projects[1..], orgId)
  }

  /** One OWNER membership of the user for each project, in order. */
  function OwnerMemberships(ps: seq<Project>, userId: int): (ms: seq<ProjectMember>)
    ensures |ms| == |ps|
    ensures forall i :: 0 <= i < |ps| ==> ms[i] == ProjectMember(ps[i].id, userId, Owner)
  {
    seq(|ps|, i requires 0 <= i < |ps| => ProjectMember(ps[i].id, userId, Owner))
  }

  /** The user becomes OWNER of exactly the organization's projects. */
  lemma OwnerMembershipsOfOrganization(projects: seq<Project>, orgId: int, userId: int, m: ProjectMember)
    ensures m in OwnerMemberships(ProjectsOf(projects, orgId), userId) <==>
      m.userId == userId && m.role == Owner &&
      exists p :: p in projects && p.orgId == orgId && p.id == m.projectId
  {
    var ps := ProjectsOf(projects, orgId);
    var ms := OwnerMemberships(ps, userId);
    if m in ms {
      var i :| 0 <= i < |ms| && ms[i] == m;
      assert ps[i] in ps;
    }
    if m.userId == userId && m.role == Owner && exists p :: p in projects && p.orgId == orgId && p.id == m.projectId {
      var p :| p in projects && p.orgId == orgId && p.id == m.projectId;
      var i :| 0 <= i < |ps| && ps[i] == p;
      assert ms[i] == m;
    }
  }

  predicate MemberOf(members: seq<OrganizationMember>, orgId: int, userId: int)
  {
    exists i :: 0 <= i < |members| && members[i].orgId == orgId && members[i].userId == userId
  }

  /** No user is a member of the same organization twice. */
  predicate UniqueMembers(members: seq<OrganizationMember>)
  {
    forall i, j :: 0 <= i < j < |members| ==>
      members[i].orgId != members[j].orgId || members[i].userId != members[j].userId
  }

  /** Appending a member that is not yet in the organization keeps members
      unique. */
  lemma AppendNewMemberKeepsUnique(members: seq<OrganizationMember>, m: OrganizationMember)
    requires UniqueMembers(members)
    requires !MemberOf(members, m.orgId, m.userId)
    ensures UniqueMembers(members + [m])
  {
    var ms := members + [m];
    forall i, j | 0 <= i < j < |ms|
      ensures ms[i].orgId != ms[j].orgId || ms[i].userId != ms[j].userId
    {
      if j == |members| {
        assert ms[i] == members[i];
      } else {
        assert ms[i] == members[i] && ms[j] == members[j];
      }
    }
  }

  /** The link of an invitation: the frontend base, "/invite/", the token. */
  function InviteUrl(frontendUrl: string, token: string): string
  {
    frontendUrl + "/invite/" + token
  }

  /** Reads the token back from an invite link of the given frontend. */
  function InviteToken(frontendUrl: string, url: string): Option<string>
  {
    var prefix := frontendUrl + "/invite/";
    if |prefix| <= |url| && url[..|prefix|] == prefix then Some(url[|prefix|..]) else None
  }

  lemma InviteTokenOfInviteUrl(frontendUrl: string, token: string)
    ensures InviteToken(frontendUrl, InviteUrl(frontendUrl, token)) == Some(token)
  {
    var prefix := frontendUrl + "/invite/";
    var url := InviteUrl(frontendUrl, token);
    assert url == prefix + token;
    assert url[..|prefix|] == prefix && url[|prefix|..] == token;
  }

  /** Different tokens give different links. */
  lemma InviteUrlInjective(frontendUrl: string, t1: string, t2: string)
    requires InviteUrl(frontendUrl, t1) == InviteUrl(frontendUrl, t2)
    ensures t1 == t2
  {
    InviteTokenOfInviteUrl(frontendUrl, t1);
    InviteTokenOfInviteUrl(frontendUrl, t2);
  }

  const AlreadyOrganizationMember: string := "User is already a member of the organization"
  const AlreadyMember: string := "User is already a member"

  // ---------------------------------------------------------------------------
  // The service over its tables.

  class OrganizationService {
    var members: seq<OrganizationMember>
    var projects: seq<Project>
    var projectMembers: seq<ProjectMember>
    var invitations: seq<Invitation>
    /** The e-mail address of each user. */
    var userEmails: map<int, string>
    /** The custom provider of each organization that has one. */
    var customProviders: map<int, CustomProvider>

    constructor(projects0: seq<Project>, userEmails0: map<int, string>, customProviders0: map<int, CustomProvider>)
      ensures members == [] && projectMembers == [] && invitations == []
      ensures projects == projects0 && userEmails == userEmails0 && customProviders == customProviders0
    {
      members := [];
      projects := projects0;
      projectMembers := [];
      invitations := [];
      userEmails := userEmails0;
      customProviders := customProviders0;
    }

    function CustomProviderOf(orgId: int): Option<CustomProvider>
      reads this
    {
      if orgId in customProviders then Some(customProviders[orgId]) else None
    }

    /** The organization's custom provider, validated. */
    function GetValidatedCustomProvider(orgId: int): (r: Result<ValidatedProvider, ProviderError>)
      reads this
      ensures r == Err(ProviderNotConfigured) <==> orgId !in customProviders
      ensures r == Err(ProviderNoBaseUrl) <==> orgId in customProviders && !HasBaseUrl(customProviders[orgId])
      ensures r.Ok? ==> orgId in customProviders && Unvalidate(r.value) == customProviders[orgId]
    {
      ValidateCustomProvider(CustomProviderOf(orgId))
    }

    /** Whether some member of the organization has this e-mail address. */
    predicate HasMemberWithEmail(orgId: int, email: string)
      reads this
    {
      exists i :: 0 <= i < |members| && members[i].orgId == orgId &&
        members[i].userId in userEmails && userEmails[members[i].userId] == email
    }

    /** Makes the user OWNER of every project of the organization, one project
        at a time. */
    method SyncProjectMembershipByOrganizationRole(orgId: int, userId: int)
      modifies this
      ensures projectMembers == old(projectMembers) + OwnerMemberships(ProjectsOf(old(projects), orgId), userId)
      ensures members == old(members) && projects == old(projects) && invitations == old(invitations)
      ensures userEmails == old(userEmails) && customProviders == old(customProviders)
    {
      var ps := ProjectsOf(projects, orgId);
      for i := 0 to |ps|
        invariant projectMembers == old(projectMembers) + OwnerMemberships(ps[..i], userId)
        invariant members == old(members) && projects == old(projects) && invitations == old(invitations)
        invariant userEmails == old(userEmails) && customProviders == old(customProviders)
      {
        projectMembers := projectMembers + [ProjectMember(ps[i].id, userId, Owner)];
        assert OwnerMemberships(ps[..i + 1], userId) ==
          OwnerMemberships(ps[..i], userId) + [ProjectMember(ps[i].id, userId, Owner)];
      }
      assert ps[..|ps|] == ps;
    }

    /** Adds the user to the organization, unless already a member; an ADMIN is
        then made OWNER of every project of the organization. */
    method AddOrganizationMember(orgId: int, userId: int, role: OrganizationRole)
      returns (r: Result<OrganizationMember, string>)
      modifies this
      ensures old(MemberOf(members, orgId, userId)) ==>
        r == Err(AlreadyOrganizationMember) && members == old(members) && projectMembers == old(projectMembers)
      ensures !old(MemberOf(members, orgId, userId)) ==>
        r == Ok(OrganizationMember(orgId, userId, role)) &&
        members == old(members) + [OrganizationMember(orgId, userId, role)] &&
        projectMembers == old(projectMembers) +
          (if role == Admin then OwnerMemberships(ProjectsOf(old(projects), orgId), userId) else [])
      ensures old(UniqueMembers(members)) ==> UniqueMembers(members)
      ensures projects == old(projects) && invitations == old(invitations)
      ensures userEmails == old(userEmails) && customProviders == old(customProviders)
    {
      if MemberOf(members, orgId, userId) {
        return Err(AlreadyOrganizationMember);
      }
      var member := OrganizationMember(orgId, userId, role);
      if UniqueMembers(members) {
        AppendNewMemberKeepsUnique(members, member);
      }
      members := members + [member];
      if role == Admin {
        SyncProjectMembershipByOrganizationRole(orgId, userId);
      } else {
        assert projectMembers == projectMembers + [];
      }
      return Ok(member);
    }

    /** Invites the address to the organization, unless one of its members
        already has it. The invitation is always for ADMIN, whatever role is
        requested; `token` is the token the database generates. */
    method CreateMemberInvitation(orgId: int, email: string, requestedRole: OrganizationRole,
                                  orgName: string, frontendUrl: string, token: string)
      returns (r: Result<InvitationLink, string>)
      modifies this
      ensures old(HasMemberWithEmail(orgId, email)) ==> r == Err(AlreadyMember) && invitations == old(invitations)
      ensures !old(HasMemberWithEmail(orgId, email)) ==>
        r == Ok(InvitationLink(Invitation(orgId, email, Admin, token), InviteUrl(frontendUrl, token))) &&
        invitations == old(invitations) + [Invitation(orgId, email, Admin, token)]
      ensures members == old(members) && projects == old(projects) && projectMembers == old(projectMembers)
      ensures userEmails == old(userEmails) && customProviders == old(customProviders)
    {
      if HasMemberWithEmail(orgId, email) {
        return Err(AlreadyMember);
      }
      var invitation := Invitation(orgId, email, Admin, token);
      invitations := invitations + [invitation];
      return Ok(InvitationLink(invitation, InviteUrl(frontendUrl, token)));
    }
  }
}
