/**
 Migration 0003 of Identity and Access: roles become tenant-scoped. Every existing role gets an
 id and the platform tenant, the primary key moves from `name` to `id`, and (tenant_id, name)
 becomes unique; the downgrade moves the key back and drops the two columns.
 */
module RolesMigration {
  import opened Prelude

  const PLATFORM_TENANT_ID := "__platform__"

  datatype OldRole = OldRole(name: string, scopes: seq<string>, description: string, createdAt: int)

  /** A row after `add_column`: the two new columns are nullable. */
  datatype Role = Role(base: OldRole, id: Option<string>, tenant: Option<string>)

  /** `name` is the primary key. */
  ghost predicate NamesUnique(rows: seq<OldRole>) {
    forall i, j :: 0 <= i < j < |rows| ==> rows[i].name != rows[j].name
  }

  ghost predicate Distinct(xs: seq<string>) {
    forall i, j :: 0 <= i < j < |xs| ==> xs[i] != xs[j]
  }

  predicate NotNull(rows: seq<Role>) {
    forall i :: 0 <= i < |rows| ==> rows[i].id.Some? && rows[i].tenant.Some?
  }

  predicate IdsUnique(rows: seq<Role>) {
    forall i, j :: 0 <= i < j < |rows| ==> rows[i].id != rows[j].id
  }

  predicate TenantNamesUnique(rows: seq<Role>) {
    forall i, j :: 0 <= i < j < |rows| ==> rows[i].tenant != rows[j].tenant || rows[i].base.name != rows[j].base.name
  }

  predicate RoleNamesUnique(rows: seq<Role>) {
    forall i, j :: 0 <= i < j < |rows| ==> rows[i].base.name != rows[j].base.name
  }

  function IndexOf(names: seq<string>, name: string): (k: nat)
    ensures k <= |names|
    ensures k < |names| ==> names[k] == name
    ensures name in names <==> k < |names|
  {
    if names == [] then 0 else if names[0] == name then 0 else 1 + IndexOf(names[1..], name)
  }

  /** The row the backfill leaves for `r`, when it gives the k-th selected name the k-th id. */
  function Filled(r: OldRole, names: seq<string>, ids: seq<string>): Role
    requires |names| == |ids| && r.name in names
  {
    Role(r, Some(ids[IndexOf(names, r.name)]), Some(PLATFORM_TENANT_ID))
  }

  /** The names a `SELECT name` returns: those of the table, each once, in any order. */
  ghost predicate Selects(names: seq<string>, rows: seq<OldRole>) {
    Distinct(names) && forall i :: 0 <= i < |rows| ==> rows[i].name in names
  }

  lemma {:induction false} IndexOfUnique(names: seq<string>, k: nat)
    requires Distinct(names) && k < |names|
    ensures IndexOf(names, names[k]) == k
  {
    var i := IndexOf(names, names[k]);
    assert names[i] == names[k];
  }

  /** The backfill loop: one UPDATE ... WHERE name = ... per selected name, in place. */
  method Backfill(table: array<Role>, names: seq<string>, ids: seq<string>)
    requires |names| == |ids| && Distinct(names)
    requires forall i :: 0 <= i < table.Length ==> table[i].base.name in names
    modifies table
    ensures forall i :: 0 <= i < table.Length ==>
      old(table[i].base.name) in names && table[i] == Filled(old(table[i].base), names, ids)
  {
    for k := 0 to |names|
      invariant forall i :: 0 <= i < table.Length ==> table[i].base == old(table[i].base)
      invariant forall i :: 0 <= i < table.Length && IndexOf(names, table[i].base.name) < k ==>
        table[i] == Filled(table[i].base, names, ids)
    {
      IndexOfUnique(names, k);
      forall i | 0 <= i < table.Length && table[i].base.name == names[k] {
        table[i] := Role(table[i].base, Some(ids[k]), Some(PLATFORM_TENANT_ID));
      }
    }
  }

  datatype Outcome = Migrated | ConstraintViolated

  /** The new constraints: no nulls, ids unique, and names unique within each tenant. */
  lemma ConstraintsExactly(rows: seq<Role>)
    ensures NotNull(rows) <==> forall i :: 0 <= i < |rows| ==> rows[i].id != None && rows[i].tenant != None
    ensures IdsUnique(rows) <==> forall i, j :: 0 <= i < j < |rows| ==> rows[i].id != rows[j].id
    ensures TenantNamesUnique(rows) <==>
      forall i, j :: 0 <= i < j < |rows| ==> (rows[i].tenant, rows[i].base.name) != (rows[j].tenant, rows[j].base.name)
  {
  }

  /** `upgrade()`: add the columns, backfill, then impose the new constraints. */
  method Upgrade(roles: seq<OldRole>, names: seq<string>, ids: seq<string>) returns (table: array<Role>, o: Outcome)
    requires NamesUnique(roles) && Selects(names, roles) && |names| == |ids|
    ensures fresh(table) && table[..] == UpgradedRows(roles, names, ids)
    ensures o == Migrated <==> NotNull(table[..]) && IdsUnique(table[..]) && TenantNamesUnique(table[..])
  {
    table := new Role[|roles|](i requires 0 <= i < |roles| => Role(roles[i], None, None));
    Backfill(table, names, ids);
    assert forall i :: 0 <= i < |roles| ==> table[i] == Filled(roles[i], names, ids);
    var rows := table[..];
    o := if NotNull(rows) && IdsUnique(rows) && TenantNamesUnique(rows) then Migrated else ConstraintViolated;
  }

  function UpgradedRows(roles: seq<OldRole>, names: seq<string>, ids: seq<string>): seq<Role>
    requires |names| == |ids| && forall i :: 0 <= i < |roles| ==> roles[i].name in names
  {
    seq(|roles|, i requires 0 <= i < |roles| => Filled(roles[i], names, ids))
  }

  function Bases(rows: seq<Role>): seq<OldRole> {
    seq(|rows|, i requires 0 <= i < |rows| => rows[i].base)
  }

  /** `downgrade()`: None when `name` cannot become the primary key again. */
  function Downgrade(rows: seq<Role>): Option<seq<OldRole>> {
    if RoleNamesUnique(rows) then Some(Bases(rows)) else None
  }

  /** UPGRADE IS SOUND. From unique names and distinct ids every new constraint holds, every row
      has the platform tenant, and name, scopes, description and creation time are untouched. */
  lemma UpgradeIsSound(roles: seq<OldRole>, names: seq<string>, ids: seq<string>)
    requires NamesUnique(roles) && Selects(names, roles) && |names| == |ids| && Distinct(ids)
    ensures var rows := UpgradedRows(roles, names, ids);
      && NotNull(rows) && IdsUnique(rows) && TenantNamesUnique(rows)
      && (forall i :: 0 <= i < |rows| ==> rows[i].tenant == Some("__platform__") && rows[i].id.Some?)
      && (forall i, j :: 0 <= i < j < |rows| ==> rows[i].id != rows[j].id && rows[i].base.name != rows[j].base.name)
      && Bases(rows) == roles
  {
    var rows := UpgradedRows(roles, names, ids);
    forall i, j | 0 <= i < j < |rows|
      ensures rows[i].id != rows[j].id
    {
      var m, n := IndexOf(names, roles[i].name), IndexOf(names, roles[j].name);
      assert names[m] != names[n];
      assert ids[m] != ids[n];
    }
  }

  /** MIGRATION ROUND TRIP: upgrade then downgrade gives back the original table. */
  lemma UpgradeThenDowngrade(roles: seq<OldRole>, names: seq<string>, ids: seq<string>)
    requires NamesUnique(roles) && Selects(names, roles) && |names| == |ids|
    ensures Downgrade(UpgradedRows(roles, names, ids)) == Some(roles)
  {
    var rows := UpgradedRows(roles, names, ids);
    assert forall i :: 0 <= i < |rows| ==> rows[i].base == roles[i];
    assert Bases(rows) == roles;
  }

  /** No name is shared by two tenants. */
  ghost predicate NamesStayInTenant(rows: seq<Role>) {
    forall i, j ::
      0 <= i < |rows| && 0 <= j < |rows| && rows[i].base.name == rows[j].base.name ==> rows[i].tenant == rows[j].tenant
  }

  /** DOWNGRADE IS EXACT: for any table in use after the upgrade, the old key is valid if and
      only if no name is shared by two tenants. */
  lemma DowngradeExact(rows: seq<Role>)
    requires TenantNamesUnique(rows)
    ensures Downgrade(rows).Some? <==> NamesStayInTenant(rows)
  {
    if NamesStayInTenant(rows) {
      assert RoleNamesUnique(rows);
    }
    if RoleNamesUnique(rows) {
      forall i, j | 0 <= i < |rows| && 0 <= j < |rows| && rows[i].base.name == rows[j].base.name
        ensures rows[i].tenant == rows[j].tenant
      {
        assert i == j;
      }
    }
  }
}
