/**
 * Schema-upgrade gating and the capability hierarchy of the installer
 * (`ShoppInstallation::upgrades`, the section gates of `upgrade_120` and
 * `ShoppInstallation::roles`).
 *
 * The settings store and the host's role registry are objects whose fields
 * the methods update; what the migrations themselves do to the database is
 * recorded only as the name of the step that ran.
 */
module Upgrades {

  // ---------------------------------------------------------------------
  // upgrades()
  // ---------------------------------------------------------------------

  /** The schema steps `upgrades` can run. */
  datatype Step = Upschema | Upgrade110 | Upgrade120

  /** What `upgrades` does, in the order it does it. */
  datatype Event = SetSetting(key: string, value: string) | Run(step: Step)

  /** `db_version` as the installer reads it: the stored setting, or the legacy one when that is 0. */
  function EffectiveVersion(stored: int, legacy: int): int
  {
    if stored == 0 then legacy else stored
  }

  /** The events `upgrades` produces for a schema at version `v` when the code expects `current`. */
  function UpgradePlan(v: int, current: int): seq<Event>
  {
    if v == current then []
    else
      [SetSetting("shopp_setup", ""), SetSetting("maintenance", "on"), Run(Upschema)]
      + (if v < 1100 then [Run(Upgrade110)] else [])
      + (if v < 1200 then [Run(Upgrade120)] else [])
  }

  /** The settings store and the record of the schema steps run against it. */
  class Installer {
    var settings: map<string, string>
    /** `intval(shopp_setting('db_version'))` */
    var dbVersion: int
    /** `intval(ShoppSettings()->legacy('db_version'))` */
    var legacyDbVersion: int
    /** Everything `upgrades` has done so far, in order. */
    var log: seq<Event>

    constructor (settings: map<string, string>, dbVersion: int, legacyDbVersion: int)
      ensures this.settings == settings && this.dbVersion == dbVersion
      ensures this.legacyDbVersion == legacyDbVersion && log == []
    {
      this.settings := settings;
      this.dbVersion := dbVersion;
      this.legacyDbVersion := legacyDbVersion;
      log := [];
    }

    method SetSetting(key: string, value: string)
      modifies this`settings, this`log
      ensures settings == old(settings)[key := value]
      ensures log == old(log) + [Event.SetSetting(key, value)]
    {
      settings := settings[key := value];
      log := log + [Event.SetSetting(key, value)];
    }

    method RunStep(step: Step)
      modifies this`log
      ensures log == old(log) + [Run(step)]
    {
      log := log + [Run(step)];
    }

    /**
     * `upgrades()` with `DB::$version` = `current`: nothing happens when the
     * schema is at the current version; otherwise setup is reset, maintenance
     * mode is switched on, the schema is updated and the version-gated
     * migrations run.
     */
    method Upgrades(current: int)
      modifies this`settings, this`log
      ensures var v := EffectiveVersion(dbVersion, legacyDbVersion);
        && log == old(log) + UpgradePlan(v, current)
        && settings == if v == current then old(settings)
                       else old(settings)["shopp_setup" := ""]["maintenance" := "on"]
    {
      var v := dbVersion;
      if v == 0 {
        v := legacyDbVersion;
      }
      if v == current {
        return;
      }
      SetSetting("shopp_setup", "");
      SetSetting("maintenance", "on");
      RunStep(Upschema);
      if v < 1100 {
        RunStep(Upgrade110);
      }
      if v < 1200 {
        RunStep(Upgrade120);
      }
    }
  }

  /** No-op upgrade: nothing is done exactly when the schema is already current. */
  lemma NoOpUpgrade(v: int, current: int)
    ensures UpgradePlan(v, current) == [] <==> v == current
  {
    if v != current {
      assert UpgradePlan(v, current)[0] == SetSetting("shopp_setup", "");
    }
  }

  /**
   * Upgrade order: when an upgrade is needed, setup is cleared and maintenance
   * is switched on before the schema step, and the schema step comes first,
   * then 1.1.0 (iff `v < 1100`), then 1.2.0 (iff `v < 1200`).
   */
  lemma UpgradeOrder(v: int, current: int)
    requires v != current
    ensures var p := UpgradePlan(v, current);
      && p[..3] == [SetSetting("shopp_setup", ""), SetSetting("maintenance", "on"), Run(Upschema)]
      && p[3..] == (if v < 1100 then [Run(Upgrade110)] else []) + (if v < 1200 then [Run(Upgrade120)] else [])
      && (Run(Upgrade110) in p <==> v < 1100)
      && (Run(Upgrade120) in p <==> v < 1200)
  {
  }

  // ---------------------------------------------------------------------
  // The section gates of upgrade_120()
  // ---------------------------------------------------------------------

  /** The blocks of `upgrade_120`, each guarded by the schema version. */
  datatype Section =
    | MoveSettings       // settings table -> meta table, then settings reloaded
    | MoveAddresses      // billing/shipping tables -> address table
    | MigrateTaxonomies  // products -> posts, categories/tags -> terms
    | MovePriceMeta      // price columns -> meta records
    | ReplacePages       // legacy storefront pages -> trash
    | SetUpRoles         // roles()

  /**
   * The blocks `upgrade_120` runs for the version `v` it reads first; when
   * the settings are moved, the version is read again (`reloaded`) and that
   * value guards the remaining blocks.
   */
  function Upgrade120Sections(v: int, reloaded: int): seq<Section>
  {
    var w := if v <= 1130 then reloaded else v;
    (if v <= 1130 then [MoveSettings] else [])
    + (if w <= 1121 then [MoveAddresses] else [])
    + (if w <= 1131 then [MigrateTaxonomies] else [])
    + (if w <= 1132 then [MovePriceMeta] else [])
    + (if w <= 1133 then [ReplacePages] else [])
    + [SetUpRoles]
  }

  /** The version that guards the blocks after the settings move. */
  function Upgrade120GuardVersion(v: int, reloaded: int): int
  {
    if v <= 1130 then reloaded else v
  }

  /**
   * The gates are nested: each block that runs makes every later data block
   * run too, a block runs iff the guard version is at most its threshold, and
   * roles are installed last in every case.
   */
  lemma Upgrade120Gates(v: int, reloaded: int)
    ensures var s := Upgrade120Sections(v, reloaded);
      var w := Upgrade120GuardVersion(v, reloaded);
      && s[|s| - 1] == SetUpRoles
      && (MoveSettings in s <==> v <= 1130)
      && (MoveAddresses in s <==> w <= 1121)
      && (MigrateTaxonomies in s <==> w <= 1131)
      && (MovePriceMeta in s <==> w <= 1132)
      && (ReplacePages in s <==> w <= 1133)
      && (MoveAddresses in s ==> MigrateTaxonomies in s)
      && (MigrateTaxonomies in s ==> MovePriceMeta in s)
      && (MovePriceMeta in s ==> ReplacePages in s)
  {
  }

  // ---------------------------------------------------------------------
  // roles()
  // ---------------------------------------------------------------------

  /** The customer-service capabilities. */
  const CsrCaps: seq<string> := ["shopp_customers", "shopp_orders", "shopp_menu", "read"]

  /** The merchant capabilities: `array_merge` of the customer-service list and nine more. */
  const MerchantCaps: seq<string> := CsrCaps + [
    "shopp_categories", "shopp_products", "shopp_memberships", "shopp_promotions",
    "shopp_financials", "shopp_export_orders", "shopp_export_customers",
    "shopp_delete_orders", "shopp_delete_customers"]

  /** The administrator capabilities: `array_merge` of the merchant list and the settings screens. */
  const AdminCaps: seq<string> := MerchantCaps + [
    "shopp_settings_update", "shopp_settings_system", "shopp_settings_presentation",
    "shopp_settings_taxes", "shopp_settings_shipping", "shopp_settings_payments",
    "shopp_settings_checkout", "shopp_settings"]

  /** The three roles `roles` installs, with their (untranslated, English) display names, in the order it installs them. */
  const ShoppRoles: seq<(string, string)> := [
    ("administrator", "Administrator"),
    ("shopp-merchant", "Merchant"),
    ("shopp-csr", "Customer Service Rep")]

  /** `$caps[$role]` */
  function CapsOf(role: string): seq<string>
  {
    if role == "administrator" then AdminCaps
    else if role == "shopp-merchant" then MerchantCaps
    else if role == "shopp-csr" then CsrCaps
    else []
  }

  function AsSet(caps: seq<string>): (r: set<string>)
    ensures forall c :: c in r <==> c in caps
  {
    set c | c in caps
  }

  /** Customer service is exactly four capabilities. */
  lemma CsrCapabilities()
    ensures AsSet(CsrCaps) == {"shopp_customers", "shopp_orders", "shopp_menu", "read"}
  {
  }

  /** Nested capabilities: each role's caps include the one below, and add to them. */
  lemma NestedCapabilities()
    ensures AsSet(CsrCaps) <= AsSet(MerchantCaps) <= AsSet(AdminCaps)
    ensures "shopp_financials" in AsSet(MerchantCaps) - AsSet(CsrCaps)
    ensures "shopp_settings" in AsSet(AdminCaps) - AsSet(MerchantCaps)
  {
    assert MerchantCaps[..|CsrCaps|] == CsrCaps;
    assert AdminCaps[..|MerchantCaps|] == MerchantCaps;
  }

  /** The host's role registry (`WP_Roles`): each role's granted capabilities and display name. */
  class RoleRegistry {
    var caps: map<string, set<string>>
    var names: map<string, string>

    ghost predicate Valid()
      reads this
    {
      caps.Keys == names.Keys
    }

    constructor (caps: map<string, set<string>>, names: map<string, string>)
      requires caps.Keys == names.Keys
      ensures Valid() && this.caps == caps && this.names == names
    {
      this.caps := caps;
      this.names := names;
    }

    predicate IsRole(role: string)
      reads this
    {
      role in caps
    }

    /** `remove_role`: forgets the role if it exists. */
    method RemoveRole(role: string)
      requires Valid()
      modifies this
      ensures Valid()
      ensures caps == old(caps) - {role} && names == old(names) - {role}
    {
      caps := caps - {role};
      names := names - {role};
    }

    /** `add_cap`: grants a capability to an existing role; does nothing for an unknown role. */
    method AddCap(role: string, cap: string)
      requires Valid()
      modifies this`caps
      ensures Valid()
      ensures caps == if role in old(caps) then old(caps)[role := old(caps)[role] + {cap}] else old(caps)
    {
      if role in caps {
        caps := caps[role := caps[role] + {cap}];
      }
    }

    /** `add_role`: creates a role with the given capabilities unless it already exists. */
    method AddRole(role: string, display: string, granted: set<string>)
      requires Valid()
      modifies this
      ensures Valid()
      ensures if role in old(caps) then caps == old(caps) && names == old(names)
              else caps == old(caps)[role := granted] && names == old(names)[role := display]
    {
      if role !in caps {
        caps := caps[role := granted];
        names := names[role := display];
      }
    }
  }

  /** One role installed: an existing role gains the capabilities, a missing one is created with exactly them. */
  function Grant(m: map<string, set<string>>, role: string, list: seq<string>): map<string, set<string>>
  {
    m[role := (if role in m then m[role] else {}) + AsSet(list)]
  }

  /** The display names after one role is installed: an existing role keeps its name. */
  function Name(m: map<string, string>, role: string, display: string): map<string, string>
  {
    if role in m then m else m[role := display]
  }

  /** The capability table after installing `roles` in order. */
  function GrantAll(m: map<string, set<string>>, roles: seq<(string, string)>): map<string, set<string>>
  {
    if roles == [] then m
    else
      var last := roles[|roles| - 1];
      Grant(GrantAll(m, roles[..|roles| - 1]), last.0, CapsOf(last.0))
  }

  /** The display names after installing `roles` in order. */
  function NameAll(m: map<string, string>, roles: seq<(string, string)>): map<string, string>
  {
    if roles == [] then m
    else
      var last := roles[|roles| - 1];
      Name(NameAll(m, roles[..|roles| - 1]), last.0, last.1)
  }

  /**
   * What `roles()` leaves in the registry: the merchant and customer-service
   * roles hold exactly their capabilities (they were removed first), the
   * administrator keeps what it had plus every administrator capability, and
   * every other role is untouched.
   */
  lemma RolesOutcome(before: map<string, set<string>>)
    ensures var after := GrantAll(before - {"shopp-csr", "shopp-merchant"}, ShoppRoles);
      && after.Keys == before.Keys + {"administrator", "shopp-merchant", "shopp-csr"}
      && after["shopp-csr"] == AsSet(CsrCaps)
      && after["shopp-merchant"] == AsSet(MerchantCaps)
      && after["administrator"] == (if "administrator" in before then before["administrator"] else {}) + AsSet(AdminCaps)
  {
    UnfoldShoppRoles(before - {"shopp-csr", "shopp-merchant"}, map[]);
  }

  /** Every role other than the three keeps its capabilities. */
  lemma RolesKeepOthers(before: map<string, set<string>>, role: string)
    requires role in before && role != "administrator" && role != "shopp-merchant" && role != "shopp-csr"
    ensures var after := GrantAll(before - {"shopp-csr", "shopp-merchant"}, ShoppRoles);
      role in after && after[role] == before[role]
  {
    UnfoldShoppRoles(before - {"shopp-csr", "shopp-merchant"}, map[]);
  }

  /** The display names after the same steps: the two Shopp roles get their names, an existing administrator keeps its own. */
  lemma RoleNamesOutcome(names: map<string, string>)
    ensures var after := NameAll(names - {"shopp-csr", "shopp-merchant"}, ShoppRoles);
      && after.Keys == names.Keys + {"administrator", "shopp-merchant", "shopp-csr"}
      && after["shopp-csr"] == "Customer Service Rep"
      && after["shopp-merchant"] == "Merchant"
      && after["administrator"] == (if "administrator" in names then names["administrator"] else "Administrator")
  {
    UnfoldShoppRoles(map[], names - {"shopp-csr", "shopp-merchant"});
  }

  /** Installing the three roles in order, one `Grant` (and one `Name`) at a time. */
  lemma UnfoldShoppRoles(m: map<string, set<string>>, n: map<string, string>)
    ensures GrantAll(m, ShoppRoles)
      == Grant(Grant(Grant(m, "administrator", AdminCaps), "shopp-merchant", MerchantCaps), "shopp-csr", CsrCaps)
    ensures NameAll(n, ShoppRoles)
      == Name(Name(Name(n, "administrator", "Administrator"), "shopp-merchant", "Merchant"), "shopp-csr", "Customer Service Rep")
  {
    assert ShoppRoles[..1][..0] == [];
    assert ShoppRoles[..2][..1] == ShoppRoles[..1];
    assert ShoppRoles[..3][..2] == ShoppRoles[..2];
    assert ShoppRoles[..3] == ShoppRoles;
    assert ShoppRoles[0].0 == "administrator" && ShoppRoles[1].0 == "shopp-merchant" && ShoppRoles[2].0 == "shopp-csr";
    assert GrantAll(m, ShoppRoles[..1]) == Grant(m, "administrator", AdminCaps);
    assert GrantAll(m, ShoppRoles[..2]) == Grant(GrantAll(m, ShoppRoles[..1]), "shopp-merchant", MerchantCaps);
    assert NameAll(n, ShoppRoles[..1]) == Name(n, "administrator", "Administrator");
    assert NameAll(n, ShoppRoles[..2]) == Name(NameAll(n, ShoppRoles[..1]), "shopp-merchant", "Merchant");
  }

  /** `is_role` / `add_cap` for each capability, or `add_role` with all of them. */
  method InstallRole(r: RoleRegistry, role: string, display: string)
    requires r.Valid()
    modifies r
    ensures r.Valid()
    ensures r.caps == Grant(old(r.caps), role, CapsOf(role))
    ensures r.names == Name(old(r.names), role, display)
  {
    var list := CapsOf(role);
    if r.IsRole(role) {
      ghost var capsBefore := r.caps;
      ghost var namesBefore := r.names;
      assert role in capsBefore;
      assert AsSet(list[..0]) == {};
      assert capsBefore[role] + AsSet(list[..0]) == capsBefore[role];
      assert capsBefore == capsBefore[role := capsBefore[role] + AsSet(list[..0])];
      var j := 0;
      while j < |list|
        invariant 0 <= j <= |list|
        invariant r.Valid() && r.names == namesBefore
        invariant role in r.caps && r.caps == capsBefore[role := capsBefore[role] + AsSet(list[..j])]
      {
        ghost var granted := capsBefore[role] + AsSet(list[..j]);
        r.AddCap(role, list[j]);
        assert r.caps == capsBefore[role := granted + {list[j]}];
        assert AsSet(list[..j + 1]) == AsSet(list[..j]) + {list[j]} by {
          assert list[..j + 1] == list[..j] + [list[j]];
        }
        assert granted + {list[j]} == capsBefore[role] + AsSet(list[..j + 1]);
        j := j + 1;
      }
      assert list[..j] == list;
    } else {
      r.AddRole(role, display, AsSet(list));
      assert {} + AsSet(list) == AsSet(list);
    }
  }

  /**
   * `roles()`: removes the merchant and customer-service roles, then installs
   * the administrator, merchant and customer-service roles in that order.
   */
  method InstallRoles(r: RoleRegistry)
    requires r.Valid()
    modifies r
    ensures r.Valid()
    ensures r.caps == GrantAll(old(r.caps) - {"shopp-csr", "shopp-merchant"}, ShoppRoles)
    ensures r.names == NameAll(old(r.names) - {"shopp-csr", "shopp-merchant"}, ShoppRoles)
  {
    r.RemoveRole("shopp-csr");
    r.RemoveRole("shopp-merchant");
    ghost var kept := r.caps;
    ghost var keptNames := r.names;
    assert kept == old(r.caps) - {"shopp-csr", "shopp-merchant"};
    assert keptNames == old(r.names) - {"shopp-csr", "shopp-merchant"};
    var k := 0;
    while k < |ShoppRoles|
      invariant 0 <= k <= |ShoppRoles|
      invariant r.Valid()
      invariant r.caps == GrantAll(kept, ShoppRoles[..k])
      invariant r.names == NameAll(keptNames, ShoppRoles[..k])
    {
      var (role, display) := ShoppRoles[k];
      InstallRole(r, role, display);
      assert ShoppRoles[..k + 1][..k] == ShoppRoles[..k];
      k := k + 1;
    }
    assert ShoppRoles[..k] == ShoppRoles;
  }
}
