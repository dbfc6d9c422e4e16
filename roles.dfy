/** The roles table of `RolesService`: an in-memory array changed by push, index assignment and splice. */
module Roles {
  import opened Wrappers
  import opened Seqs

  /** `UserRole`: the two role names. */
  datatype UserRole = User | Admin

  datatype Role = Role(
    roleId: string,
    roleName: UserRole,
    roleDescription: string,
    roleCreatedAt: int,
    roleUpdatedAt: int)

  datatype CreateRoleDto = CreateRoleDto(roleName: UserRole, roleDescription: string)

  /** The partial form of `CreateRoleDto`: an absent field is `None`. */
  datatype UpdateRoleDto = UpdateRoleDto(roleName: Option<UserRole>, roleDescription: Option<string>)

  /** The two roles `initializeDefaultRoles` creates, in order. */
  const DefaultRoleDtos: seq<CreateRoleDto> := [
    CreateRoleDto(User, "Utilisateur standard"),
    CreateRoleDto(Admin, "Administrateur")
  ]

  /** The record `create` and `initializeDefaultRoles` build from a dto. */
  function NewRole(dto: CreateRoleDto, id: string, now: int): Role {
    Role(id, dto.roleName, dto.roleDescription, now, now)
  }

  /** `{...role, ...dto, roleUpdatedAt: now}`: supplied fields win, the id and creation time stay. */
  function ApplyRoleUpdate(role: Role, dto: UpdateRoleDto, now: int): (r: Role)
    ensures r.roleId == role.roleId && r.roleCreatedAt == role.roleCreatedAt
    ensures r.roleUpdatedAt == now
    ensures r.roleName == dto.roleName.GetOr(role.roleName)
    ensures r.roleDescription == dto.roleDescription.GetOr(role.roleDescription)
  {
    role.(roleName := dto.roleName.GetOr(role.roleName),
          roleDescription := dto.roleDescription.GetOr(role.roleDescription),
          roleUpdatedAt := now)
  }

  function HasId(id: string): Role -> bool {
    (r: Role) => r.roleId == id
  }

  function HasName(name: UserRole): Role -> bool {
    (r: Role) => r.roleName == name
  }

  class RolesService {
    var roles: seq<Role>

    /**
     * The constructor runs `initializeDefaultRoles`, which pushes one record per default dto;
     * `ids` are the identifiers `uuid()` hands out, one per role.
     */
    constructor (ids: seq<string>, now: int)
      requires |ids| == |DefaultRoleDtos|
      ensures |roles| == 2
      ensures roles[0] == Role(ids[0], User, "Utilisateur standard", now, now)
      ensures roles[1] == Role(ids[1], Admin, "Administrateur", now, now)
    {
      roles := [];
      new;
      for i := 0 to |DefaultRoleDtos|
        invariant |roles| == i
        invariant forall k :: 0 <= k < i ==> roles[k] == NewRole(DefaultRoleDtos[k], ids[k], now)
      {
        roles := roles + [NewRole(DefaultRoleDtos[i], ids[i], now)];
      }
    }

    /** `create`: appends one role built from the dto and returns it. */
    method Create(dto: CreateRoleDto, id: string, now: int) returns (role: Role)
      modifies this
      ensures role == NewRole(dto, id, now)
      ensures roles == old(roles) + [role]
    {
      role := NewRole(dto, id, now);
      roles := roles + [role];
    }

    /** `findAll`: the table itself, every role in insertion order. */
    function FindAll(): (r: seq<Role>)
      reads this
      ensures r == roles
    {
      roles
    }

    /** `findOne`: the first role with that id, or `undefined`. */
    function FindOne(id: string): (r: Option<Role>)
      reads this
      ensures r.Some? ==> r.value in roles && r.value.roleId == id
      ensures r.None? <==> forall k :: 0 <= k < |roles| ==> roles[k].roleId != id
      ensures r.Some? ==> exists k :: 0 <= k < |roles| && roles[k] == r.value
                                      && forall j :: 0 <= j < k ==> roles[j].roleId != id
    {
      var k := FindIndex(roles, HasId(id));
      if k < 0 then None else Some(roles[k])
    }

    /** `findByName`: the first role with that name, or `undefined`. */
    function FindByName(name: UserRole): (r: Option<Role>)
      reads this
      ensures r.Some? ==> r.value in roles && r.value.roleName == name
      ensures r.None? <==> forall k :: 0 <= k < |roles| ==> roles[k].roleName != name
      ensures r.Some? ==> exists k :: 0 <= k < |roles| && roles[k] == r.value
                                      && forall j :: 0 <= j < k ==> roles[j].roleName != name
    {
      var k := FindIndex(roles, HasName(name));
      if k < 0 then None else Some(roles[k])
    }

    /**
     * `update`: `undefined` and no change for an unknown id; otherwise the first role with that
     * id is replaced by its updated form, which is returned, and no other entry changes.
     */
    method Update(id: string, dto: UpdateRoleDto, now: int) returns (r: Option<Role>)
      modifies this
      ensures var k := FindIndex(old(roles), HasId(id));
        if k < 0 then r.None? && roles == old(roles)
        else r == Some(ApplyRoleUpdate(old(roles)[k], dto, now))
             && roles == old(roles)[k := r.value]
    {
      var k := FindIndex(roles, HasId(id));
      if k == -1 {
        return None;
      }
      roles := roles[k := ApplyRoleUpdate(roles[k], dto, now)];
      r := Some(roles[k]);
    }

    /** `remove`: false and no change for an unknown id; otherwise splices out the first role with that id. */
    method Remove(id: string) returns (removed: bool)
      modifies this
      ensures var k := FindIndex(old(roles), HasId(id));
        removed == (k >= 0)
        && roles == if k < 0 then old(roles) else RemoveAt(old(roles), k)
    {
      var k := FindIndex(roles, HasId(id));
      if k == -1 {
        return false;
      }
      roles := RemoveAt(roles, k);
      removed := true;
    }
  }

  /** A fresh service answers both default role names with the records it was seeded with. */
  method DefaultRolesAreFound(ids: seq<string>, now: int) returns (user: Option<Role>, admin: Option<Role>)
    requires |ids| == |DefaultRoleDtos|
    ensures user == Some(Role(ids[0], User, "Utilisateur standard", now, now))
    ensures admin == Some(Role(ids[1], Admin, "Administrateur", now, now))
  {
    var service := new RolesService(ids, now);
    user := service.FindByName(User);
    admin := service.FindByName(Admin);
  }
}
