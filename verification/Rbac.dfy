/** The two role evaluators: incident-svc's `effective` and the rbac service's `computeEffective`. */
module Rbac {
  import opened Common

  datatype Role = VIEWER | EDITOR | IMO | ADMIN

  datatype Action = READ | WRITE | ASSIGN | ADMINISTER

  datatype Grant = Grant(user: string, role: Role)

  function Rank(r: Role): nat {
    match r case VIEWER => 0 case EDITOR => 1 case IMO => 2 case ADMIN => 3
  }

  const DEFAULT_SUFFIXES := ["READ", "VIEW", "ALL"]

  // ---------------------------------------------------------------------
  // incident-svc
  // ---------------------------------------------------------------------

  /** Adds the role and every lower one. */
  function Escalate(roles: set<Role>, role: Role): (r: set<Role>)
    ensures forall x :: x in r <==> x in roles || Rank(x) <= Rank(role)
  {
    if role == ADMIN then roles + {ADMIN, IMO, EDITOR, VIEWER}
    else if role == IMO then roles + {IMO, EDITOR, VIEWER}
    else if role == EDITOR then roles + {EDITOR, VIEWER}
    else roles + {VIEWER}
  }

  /** Some group is the operation's code, an underscore and one of the suffixes. */
  predicate InReadGroup(groups: seq<string>, op: string, suffixes: seq<string>) {
    exists s :: s in suffixes && op + "_" + s in groups
  }

  predicate Granted(grants: seq<Grant>, upn: string, atLeast: Role) {
    exists g :: g in grants && g.user == upn && Rank(atLeast) <= Rank(g.role)
  }

  /** What the roles mean: VIEWER from a read group, and everything at or below a granted role. */
  predicate HasRole(r: Role, upn: string, groups: seq<string>, op: string, grants: seq<Grant>, suffixes: seq<string>) {
    (r == VIEWER && InReadGroup(groups, op, suffixes)) || Granted(grants, upn, r)
  }

  method Effective(upn: string, groups: seq<string>, op: string, grants: seq<Grant>, suffixes: seq<string>)
    returns (roles: set<Role>)
    ensures forall r :: r in roles <==> HasRole(r, upn, groups, op, grants, suffixes)
    ensures forall r, lower :: r in roles && Rank(lower) <= Rank(r) ==> lower in roles
  {
    roles := {};
    var k := 0;
    while k < |suffixes|
      invariant k <= |suffixes| && roles == {}
      invariant !InReadGroup(groups, op, suffixes[..k])
    {
      if op + "_" + suffixes[k] in groups {
        roles := Escalate(roles, VIEWER);
        assert suffixes[k] in suffixes;
        break;
      }
      assert suffixes[..k + 1] == suffixes[..k] + [suffixes[k]];
      k := k + 1;
    }
    assert k == |suffixes| ==> suffixes[..k] == suffixes;
    assert forall r :: r in roles <==> r == VIEWER && InReadGroup(groups, op, suffixes);
    ghost var fromGroups := roles;
    for j := 0 to |grants|
      invariant forall r :: r in roles <==> r in fromGroups || Granted(grants[..j], upn, r)
    {
      var g := grants[j];
      GrantedSnoc(grants[..j], g, upn);
      assert grants[..j + 1] == grants[..j] + [g];
      if g.user == upn {
        roles := Escalate(roles, g.role);
      }
    }
    assert grants[..|grants|] == grants;
  }

  lemma GrantedSnoc(grants: seq<Grant>, g: Grant, upn: string)
    ensures forall r :: Granted(grants + [g], upn, r) <==>
      Granted(grants, upn, r) || (g.user == upn && Rank(r) <= Rank(g.role))
  {
    forall r
      ensures Granted(grants + [g], upn, r) <==> Granted(grants, upn, r) || (g.user == upn && Rank(r) <= Rank(g.role))
    {
      assert g in grants + [g];
      assert forall h :: h in grants + [g] <==> h in grants || h == g;
    }
  }

  function Can(roles: set<Role>, action: Action): bool {
    match action
    case READ => VIEWER in roles || EDITOR in roles || IMO in roles || ADMIN in roles
    case WRITE => EDITOR in roles || IMO in roles || ADMIN in roles
    case ASSIGN => IMO in roles || ADMIN in roles
    case ADMINISTER => ADMIN in roles
  }

  // ---------------------------------------------------------------------
  // The rbac service
  // ---------------------------------------------------------------------

  predicate StartsWith(s: string, prefix: string) {
    |prefix| <= |s| && s[..|prefix|] == prefix
  }

  /** Some group starts with the operation's prefix and the rest of it is a suffix. */
  predicate HasReadGroup(groups: seq<string>, op: string, suffixes: seq<string>) {
    exists g :: g in groups && StartsWith(g, op + "_") && g[|op| + 1..] in suffixes
  }

  /** Roles without duplicates, and the highest of them. */
  method ComputeEffective(groups: seq<string>, op: string, suffixes: seq<string>, grant: Option<Role>)
    returns (roles: seq<Role>, highest: Role)
    ensures forall r :: r in roles <==> r in Computed(groups, op, suffixes, grant)
    ensures forall i, j :: 0 <= i < j < |roles| ==> roles[i] != roles[j]
    ensures forall r :: r in roles ==> Rank(r) <= Rank(highest)
    ensures highest in roles || (highest == VIEWER && roles == [])
  {
    var readSuffixes := if suffixes != [] then suffixes else DEFAULT_SUFFIXES;
    roles := [];
    if HasReadGroup(groups, op, readSuffixes) {
      roles := [VIEWER];
    }
    if grant.Some? && grant.value !in roles {
      roles := roles + [grant.value];
    }
    highest := VIEWER;
    for k := 0 to |roles|
      invariant highest in roles[..k] || highest == VIEWER
      invariant forall r :: r in roles[..k] ==> Rank(r) <= Rank(highest)
    {
      assert roles[..k + 1] == roles[..k] + [roles[k]];
      if Rank(roles[k]) > Rank(highest) {
        highest := roles[k];
      }
    }
    assert roles[..|roles|] == roles;
    assert roles != [] ==> roles[0] in roles;
  }

  function Computed(groups: seq<string>, op: string, suffixes: seq<string>, grant: Option<Role>): set<Role> {
    (if HasReadGroup(groups, op, if suffixes != [] then suffixes else DEFAULT_SUFFIXES) then {VIEWER} else {})
    + if grant.Some? then {grant.value} else {}
  }

  function ActionRoles(action: Action): seq<Role> {
    match action
    case READ => [VIEWER, EDITOR, IMO, ADMIN]
    case WRITE => [EDITOR, IMO, ADMIN]
    case ASSIGN => [IMO, ADMIN]
    case ADMINISTER => [ADMIN]
  }

  predicate CanByMap(roles: set<Role>, action: Action) {
    exists r :: r in ActionRoles(action) && r in roles
  }

  // ---------------------------------------------------------------------
  // Agreement
  // ---------------------------------------------------------------------

  /** The user's highest grant. */
  function Highest(grants: seq<Grant>, upn: string): (r: Option<Role>)
    ensures r.None? <==> forall g :: g in grants ==> g.user != upn
    ensures r.Some? ==> Grant(upn, r.value) in grants
    ensures r.Some? ==> forall g :: g in grants && g.user == upn ==> Rank(g.role) <= Rank(r.value)
  {
    if grants == [] then None
    else
      var rest := Highest(grants[1..], upn);
      if grants[0].user != upn then rest
      else if rest.None? || Rank(rest.value) < Rank(grants[0].role) then Some(grants[0].role)
      else rest
  }

  function EffectiveRoles(upn: string, groups: seq<string>, op: string, grants: seq<Grant>, suffixes: seq<string>)
    : set<Role>
  {
    set r: Role | HasRole(r, upn, groups, op, grants, suffixes)
  }

  lemma SameReadGroups(groups: seq<string>, op: string, suffixes: seq<string>)
    ensures InReadGroup(groups, op, suffixes) <==> HasReadGroup(groups, op, suffixes)
  {
    if s :| s in suffixes && op + "_" + s in groups {
      var g := op + "_" + s;
      assert g[|op| + 1..] == s && StartsWith(g, op + "_");
    }
    if g :| g in groups && StartsWith(g, op + "_") && g[|op| + 1..] in suffixes {
      assert op + "_" + g[|op| + 1..] == g;
    }
  }

  /** The grants matter only through the highest one. */
  lemma GrantedByHighest(grants: seq<Grant>, upn: string, r: Role)
    ensures Granted(grants, upn, r) <==> Highest(grants, upn).Some? && Rank(r) <= Rank(Highest(grants, upn).value)
  {
  }

  /** The lowest role that may do the action. */
  function Needed(action: Action): Role {
    match action case READ => VIEWER case WRITE => EDITOR case ASSIGN => IMO case ADMINISTER => ADMIN
  }

  /** What an evaluator should allow, from group membership and the highest grant alone. */
  predicate Allowed(inGroup: bool, grant: Option<Role>, action: Action) {
    (action == READ && inGroup) || (grant.Some? && Rank(Needed(action)) <= Rank(grant.value))
  }

  lemma EffectiveAllows(upn: string, groups: seq<string>, op: string, grants: seq<Grant>,
                        suffixes: seq<string>, action: Action)
    ensures Can(EffectiveRoles(upn, groups, op, grants, suffixes), action)
      == Allowed(InReadGroup(groups, op, suffixes), Highest(grants, upn), action)
  {
    GrantedByHighest(grants, upn, VIEWER);
    GrantedByHighest(grants, upn, EDITOR);
    GrantedByHighest(grants, upn, IMO);
    GrantedByHighest(grants, upn, ADMIN);
  }

  lemma ActionRolesAre(action: Action, r: Role)
    ensures r in ActionRoles(action) <==> Rank(Needed(action)) <= Rank(r)
  {
    var roles := ActionRoles(action);
    match action
    case READ => assert roles == [VIEWER, EDITOR, IMO, ADMIN];
    case WRITE => assert roles == [EDITOR, IMO, ADMIN];
    case ASSIGN => assert roles == [IMO, ADMIN];
    case ADMINISTER => assert roles == [ADMIN];
    assert r == VIEWER || r == EDITOR || r == IMO || r == ADMIN;
  }

  lemma ComputedAllows(groups: seq<string>, op: string, suffixes: seq<string>, grant: Option<Role>, action: Action)
    ensures CanByMap(Computed(groups, op, suffixes, grant), action)
      == Allowed(HasReadGroup(groups, op, if suffixes != [] then suffixes else DEFAULT_SUFFIXES), grant, action)
  {
    ActionRolesAre(action, VIEWER);
    if grant.Some? {
      ActionRolesAre(action, grant.value);
    }
  }

  /** Some group is the operation's code, an underscore and a suffix that counts. */
  ghost predicate InGroup(groups: seq<string>, op: string, suffixes: seq<string>) {
    exists s :: s in suffixes && op + "_" + s in groups
  }

  /** The user holds one of these roles by a grant of their own. */
  ghost predicate Holds(grants: seq<Grant>, upn: string, roles: set<Role>) {
    exists g :: g in grants && g.user == upn && g.role in roles
  }

  /** Who may do what: a read group allows reading and nothing else, a grant what its role is for. */
  lemma WhoCan(upn: string, groups: seq<string>, op: string, grants: seq<Grant>, suffixes: seq<string>)
    ensures var roles := EffectiveRoles(upn, groups, op, grants, suffixes);
      && (Can(roles, READ) <==>
            InGroup(groups, op, suffixes) || Holds(grants, upn, {VIEWER, EDITOR, IMO, ADMIN}))
      && (Can(roles, WRITE) <==> Holds(grants, upn, {EDITOR, IMO, ADMIN}))
      && (Can(roles, ASSIGN) <==> Holds(grants, upn, {IMO, ADMIN}))
      && (Can(roles, ADMINISTER) <==> Holds(grants, upn, {ADMIN}))
  {
    EffectiveAllows(upn, groups, op, grants, suffixes, READ);
    EffectiveAllows(upn, groups, op, grants, suffixes, WRITE);
    EffectiveAllows(upn, groups, op, grants, suffixes, ASSIGN);
    EffectiveAllows(upn, groups, op, grants, suffixes, ADMINISTER);
  }

  /** The same for the rbac service, whose one grant is the user's highest and which knows default suffixes. */
  lemma WhoCanByMap(groups: seq<string>, op: string, suffixes: seq<string>, grant: Option<Role>)
    ensures var roles := Computed(groups, op, suffixes, grant);
      && (CanByMap(roles, READ) <==>
            InGroup(groups, op, if suffixes == [] then ["READ", "VIEW", "ALL"] else suffixes) || grant.Some?)
      && (CanByMap(roles, WRITE) <==> grant.Some? && grant.value in {EDITOR, IMO, ADMIN})
      && (CanByMap(roles, ASSIGN) <==> grant.Some? && grant.value in {IMO, ADMIN})
      && (CanByMap(roles, ADMINISTER) <==> grant == Some(ADMIN))
  {
    SameReadGroups(groups, op, if suffixes == [] then DEFAULT_SUFFIXES else suffixes);
    ComputedAllows(groups, op, suffixes, grant, READ);
    ComputedAllows(groups, op, suffixes, grant, WRITE);
    ComputedAllows(groups, op, suffixes, grant, ASSIGN);
    ComputedAllows(groups, op, suffixes, grant, ADMINISTER);
  }

  /**
   The two evaluators agree on every action exactly when the suffix list is not empty, or the user has a grant, or no
   group matches the default suffixes that only `computeEffective` falls back to.
   */
  lemma EvaluatorsAgree(upn: string, groups: seq<string>, op: string, grants: seq<Grant>, suffixes: seq<string>)
    ensures (forall action ::
        Can(EffectiveRoles(upn, groups, op, grants, suffixes), action)
        == CanByMap(Computed(groups, op, suffixes, Highest(grants, upn)), action))
      <==> suffixes != [] || Highest(grants, upn).Some? || !InReadGroup(groups, op, ["READ", "VIEW", "ALL"])
  {
    var highest := Highest(grants, upn);
    SameReadGroups(groups, op, suffixes);
    SameReadGroups(groups, op, DEFAULT_SUFFIXES);
    forall action
      ensures Can(EffectiveRoles(upn, groups, op, grants, suffixes), action)
        == Allowed(InReadGroup(groups, op, suffixes), highest, action)
      ensures CanByMap(Computed(groups, op, suffixes, highest), action)
        == Allowed(InReadGroup(groups, op, if suffixes != [] then suffixes else DEFAULT_SUFFIXES), highest, action)
    {
      EffectiveAllows(upn, groups, op, grants, suffixes, action);
      ComputedAllows(groups, op, suffixes, highest, action);
    }
    assert suffixes == [] ==> !InReadGroup(groups, op, suffixes);
    assert suffixes == [] && highest.None? && InReadGroup(groups, op, DEFAULT_SUFFIXES) ==>
      Can(EffectiveRoles(upn, groups, op, grants, suffixes), READ)
      != CanByMap(Computed(groups, op, suffixes, highest), READ);
  }

  /**
   The only difference, at work: with no suffixes configured, a member of the default read group may read by one
   only.
   */
  lemma EmptySuffixesDiffer()
    ensures !Can(EffectiveRoles("ann", ["NORTH_READ"], "NORTH", [], []), READ)
    ensures CanByMap(Computed(["NORTH_READ"], "NORTH", [], Highest([], "ann")), READ)
  {
    var group := "NORTH_READ";
    assert group[|"NORTH"| + 1..] == DEFAULT_SUFFIXES[0];
    assert StartsWith(group, "NORTH" + "_");
    assert group in [group];
    assert HasReadGroup([group], "NORTH", DEFAULT_SUFFIXES);
    assert ActionRoles(READ)[0] == VIEWER;
  }

  /** A role brings every lower role, and only which grants there are matters, not their order or number. */
  lemma EffectiveIsClosed(upn: string, groups: seq<string>, op: string, grants: seq<Grant>,
                          others: seq<Grant>, suffixes: seq<string>)
    requires forall g :: g in grants <==> g in others
    ensures var roles := EffectiveRoles(upn, groups, op, grants, suffixes);
      && roles == EffectiveRoles(upn, groups, op, others, suffixes)
      && forall r, lower :: r in roles && Rank(lower) <= Rank(r) ==> lower in roles
  {
    forall r: Role
      ensures Granted(grants, upn, r) == Granted(others, upn, r)
    {
    }
  }
}
