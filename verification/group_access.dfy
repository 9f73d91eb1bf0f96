/**
 Who gets a token and with which roles: the group merge of GetUserInfo and
 checkGroupMemberships (internal/authbridge/openshift.go), then isAuthorized and mapRoles
 (internal/authbridge/server.go), in the order both /callback and /token/exchange run them.
 */
module GroupAccess {
  import opened Options

  const SERVICE_ACCOUNT_PREFIX := "system:serviceaccount:"
  const KUBE_ADMIN := "kube:admin"
  const ROLE_USER := "openshell-user"
  const ROLE_ADMIN := "openshell-admin"

  datatype Config = Config(userGroup: string, adminGroup: string)
  datatype Group = NotFound | Listed(users: seq<string>) | LookupError
  datatype UserInfo = UserInfo(name: string, uid: string, groups: seq<string>)

  /**
   The cluster as the bridge sees it: its own ServiceAccount token with white space trimmed (none
   if the file cannot be read), the Group objects and the two base64 decoders.
   */
  datatype Cluster = Cluster(token: Option<string>, group: string -> Group,
                             decodeStd: string -> Option<string>, decodeRaw: string -> Option<string>)

  predicate HasToken(c: Cluster) {
    c.token.Some? && c.token.value != ""
  }

  function Decode(c: Cluster, s: string): Option<string> {
    if c.decodeStd(s).Some? then c.decodeStd(s) else c.decodeRaw(s)
  }

  /** The user a Group entry names, if it names one. */
  function EntryName(c: Cluster, entry: string): Option<string> {
    if "b64:" <= entry then Decode(c, entry[4..]) else Some(entry)
  }

  ghost predicate ListsUser(c: Cluster, users: seq<string>, name: string) {
    exists i :: 0 <= i < |users| && EntryName(c, users[i]) == Some(name)
  }

  /** The Group object exists and names the user. */
  ghost predicate GroupHas(c: Cluster, group: string, name: string) {
    c.group(group).Listed? && ListsUser(c, c.group(group).users, name)
  }

  predicate IsServiceAccount(name: string) {
    SERVICE_ACCOUNT_PREFIX <= name
  }

  /** The entry is `b64:` and an encoding of the name, padded or, if it does not decode so, unpadded. */
  predicate EncodesName(c: Cluster, entry: string, name: string) {
    && |entry| >= 4 && entry[..4] == "b64:"
    && var rest := entry[4..];
    c.decodeStd(rest) == Some(name) || (c.decodeStd(rest).None? && c.decodeRaw(rest) == Some(name))
  }

  /** A ServiceAccount is listed in plain form or in b64 form, and in no other way. */
  lemma ListedPlainOrEncoded(c: Cluster, users: seq<string>, name: string)
    requires IsServiceAccount(name)
    ensures ListsUser(c, users, name)
            <==> || name in users
                 || exists i :: 0 <= i < |users| && EncodesName(c, users[i], name)
  {
    assert name[0] == 's' && !("b64:" <= name);
    if i :| 0 <= i < |users| && users[i] == name {
      assert EntryName(c, users[i]) == Some(name);
    }
    if i :| 0 <= i < |users| && EncodesName(c, users[i], name) {
      assert EntryName(c, users[i]) == Some(name);
    }
  }

  ghost predicate LookupFails(c: Cluster, groupNames: seq<string>) {
    exists g :: g in groupNames && g != "" && c.group(g).LookupError?
  }

  /** The groups, out of the given ones, whose Group object names the user;
      none without a token or if a lookup failed. */
  method CheckGroupMemberships(c: Cluster, username: string, groupNames: seq<string>)
    returns (matched: Option<seq<string>>)
    ensures matched.None? <==> !HasToken(c) || LookupFails(c, groupNames)
    ensures matched.Some? ==>
              forall g :: g in matched.value <==> g in groupNames && g != "" && GroupHas(c, g, username)
  {
    if c.token.None? {
      return None;
    }
    if c.token.value == "" {
      return None;
    }
    var found: seq<string> := [];
    for i := 0 to |groupNames|
      invariant !LookupFails(c, groupNames[..i])
      invariant forall g :: g in found <==> g in groupNames[..i] && g != "" && GroupHas(c, g, username)
    {
      var groupName := groupNames[i];
      assert groupNames[..i + 1] == groupNames[..i] + [groupName];
      if groupName != "" {
        var group := c.group(groupName);
        if group.LookupError? {
          assert groupName in groupNames;
          return None;
        }
        if group.Listed? {
          var member := NamesUser(c, group.users, username);
          if member {
            found := found + [groupName];
          }
        }
      }
    }
    assert groupNames[..|groupNames|] == groupNames;
    return Some(found);
  }

  method NamesUser(c: Cluster, users: seq<string>, username: string) returns (member: bool)
    ensures member <==> ListsUser(c, users, username)
  {
    for i := 0 to |users|
      invariant forall j :: 0 <= j < i ==> EntryName(c, users[j]) != Some(username)
    {
      var candidate := Some(users[i]);
      if "b64:" <= users[i] {
        candidate := c.decodeStd(users[i][4..]);
        if candidate.None? {
          candidate := c.decodeRaw(users[i][4..]);
        }
      }
      if candidate == Some(username) {
        return true;
      }
    }
    return false;
  }

  /** What the identity's groups amount to: the reported ones,
      and for a ServiceAccount the Group objects that name it. */
  ghost predicate Holds(c: Cluster, name: string, reported: seq<string>, groupNames: seq<string>, g: string) {
    g in reported || (IsServiceAccount(name) && g in groupNames && g != "" && GroupHas(c, g, name))
  }

  /** GetUserInfo after the users/~ call; `review` is the UID a TokenReview would return. */
  method GetUserInfo(c: Cluster, name: string, uid: string, reported: seq<string>, review: Option<string>,
                     groupNames: seq<string>)
    returns (info: Option<UserInfo>)
    ensures info.None? <==>
              && IsServiceAccount(name)
              && ((groupNames != [] && !HasToken(c)) || LookupFails(c, groupNames) || (uid == "" && review.None?))
    ensures info.Some? ==> info.value.name == name
    ensures info.Some? ==> forall g :: g in info.value.groups <==> Holds(c, name, reported, groupNames, g)
    ensures info.Some? ==> info.value.uid == if IsServiceAccount(name) && uid == "" then review.value else uid
  {
    var groups, subject := reported, uid;
    if IsServiceAccount(name) {
      if |groupNames| > 0 {
        var extra := CheckGroupMemberships(c, name, groupNames);
        if extra.None? {
          return None;
        }
        var seen := set g | g in reported;
        for i := 0 to |extra.value|
          invariant forall g :: g in groups <==> g in reported || g in extra.value[..i]
        {
          assert extra.value[..i + 1] == extra.value[..i] + [extra.value[i]];
          if extra.value[i] !in seen {
            groups := groups + [extra.value[i]];
          }
        }
        assert extra.value[..|extra.value|] == extra.value;
      }
      if uid == "" {
        if review.None? {
          return None;
        }
        subject := review.value;
      }
    }
    return Some(UserInfo(name, subject, groups));
  }

  method IsAuthorized(cfg: Config, username: string, groups: seq<string>) returns (ok: bool)
    ensures ok <==> username == KUBE_ADMIN || (cfg.userGroup != "" && cfg.userGroup in groups)
  {
    if username == KUBE_ADMIN {
      return true;
    }
    if cfg.userGroup == "" {
      return false;
    }
    for i := 0 to |groups|
      invariant cfg.userGroup !in groups[..i]
    {
      if groups[i] == cfg.userGroup {
        return true;
      }
    }
    assert groups[..|groups|] == groups;
    return false;
  }

  method MapRoles(cfg: Config, groups: seq<string>) returns (roles: seq<string>)
    ensures roles == if cfg.adminGroup != "" && cfg.adminGroup in groups then [ROLE_USER, ROLE_ADMIN] else [ROLE_USER]
  {
    roles := [ROLE_USER];
    if cfg.adminGroup != "" {
      for i := 0 to |groups|
        invariant cfg.adminGroup !in groups[..i] && roles == [ROLE_USER]
      {
        if groups[i] == cfg.adminGroup {
          roles := roles + [ROLE_ADMIN];
          return;
        }
      }
      assert groups[..|groups|] == groups;
    }
  }

  datatype Decision = LookupFailed | Denied | Granted(subject: string, roles: seq<string>)

  /** The identity is a member of this configured group, by report or by Group object. */
  ghost predicate InGroup(c: Cluster, name: string, reported: seq<string>, group: string) {
    group != "" && (group in reported || (IsServiceAccount(name) && GroupHas(c, group, name)))
  }

  /** The Group object's user list names the user, plainly or encoded. */
  ghost predicate Names(c: Cluster, group: string, name: string) {
    && c.group(group).Listed?
    && (|| name in c.group(group).users
        || exists i :: 0 <= i < |c.group(group).users| && EncodesName(c, c.group(group).users[i], name))
  }

  /** The group is configured and reported, or its Group object names the ServiceAccount. */
  ghost predicate Admits(c: Cluster, name: string, reported: seq<string>, group: string) {
    group != "" && (group in reported || Names(c, group, name))
  }

  predicate Prefixed(name: string) {
    |name| >= 22 && name[..22] == "system:serviceaccount:"
  }

  lemma AdmitsIsInGroup(c: Cluster, name: string, reported: seq<string>, group: string)
    requires Prefixed(name)
    ensures IsServiceAccount(name) && (InGroup(c, name, reported, group) <==> Admits(c, name, reported, group))
  {
    assert SERVICE_ACCOUNT_PREFIX <= name;
    if c.group(group).Listed? {
      ListedPlainOrEncoded(c, c.group(group).users, name);
    }
  }

  /**
   The decision for every identity and all group data. A token is granted iff the identity is in
   the user group (or is kube:admin), and it carries the admin role iff the identity is in the
   admin group. An empty group name admits nobody. The last clauses say the same on the group
   data alone, for a ServiceAccount and for every other identity.
   */
  method Decide(cfg: Config, c: Cluster, name: string, uid: string, reported: seq<string>, review: Option<string>)
    returns (d: Decision)
    ensures d.LookupFailed? <==>
              && IsServiceAccount(name)
              && (!HasToken(c) || LookupFails(c, [cfg.userGroup, cfg.adminGroup]) || (uid == "" && review.None?))
    ensures d.Granted? <==> !d.LookupFailed? && (name == KUBE_ADMIN || InGroup(c, name, reported, cfg.userGroup))
    ensures d.Granted? ==>
              d.roles == if InGroup(c, name, reported, cfg.adminGroup) then [ROLE_USER, ROLE_ADMIN] else [ROLE_USER]
    ensures d.Granted? ==> d.subject == if IsServiceAccount(name) && uid == "" then review.value else uid
    ensures Prefixed(name) && !d.LookupFailed? ==> (d.Granted? <==> Admits(c, name, reported, cfg.userGroup))
    ensures Prefixed(name) && d.Granted? ==>
              && "openshell-user" in d.roles
              && ("openshell-admin" in d.roles <==> Admits(c, name, reported, cfg.adminGroup))
    ensures !Prefixed(name) ==>
              && !d.LookupFailed?
              && (d.Granted? <==> name == "kube:admin" || (cfg.userGroup != "" && cfg.userGroup in reported))
              && (d.Granted? ==>
                    && "openshell-user" in d.roles && d.subject == uid
                    && ("openshell-admin" in d.roles <==> cfg.adminGroup != "" && cfg.adminGroup in reported))
  {
    if Prefixed(name) {
      AdmitsIsInGroup(c, name, reported, cfg.userGroup);
      AdmitsIsInGroup(c, name, reported, cfg.adminGroup);
      assert name[0] == 's' && KUBE_ADMIN[0] == 'k';
    }
    var groupNames := [cfg.userGroup, cfg.adminGroup];
    var info := GetUserInfo(c, name, uid, reported, review, groupNames);
    if info.None? {
      return LookupFailed;
    }
    assert cfg.userGroup == groupNames[0] && cfg.adminGroup == groupNames[1];
    assert cfg.userGroup in info.value.groups <==> Holds(c, name, reported, groupNames, cfg.userGroup);
    assert cfg.adminGroup in info.value.groups <==> Holds(c, name, reported, groupNames, cfg.adminGroup);
    var authorized := IsAuthorized(cfg, info.value.name, info.value.groups);
    if !authorized {
      return Denied;
    }
    var roles := MapRoles(cfg, info.value.groups);
    return Granted(info.value.uid, roles);
  }
}
