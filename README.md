# Shopp installer and catalog rules, in Dafny

This project models the rule-bearing core of the Shopp e-commerce plugin for
WordPress. The model covers two source files.

- **`core/flow/Install.php`**
  - The schema-upgrade gating of `ShoppInstallation::upgrades` and the
    section gates of `upgrade_120`.
  - The three nested capability lists that `roles()` installs.
  - Inside the 1.2.0 migration:
    - the slug de-duplication for legacy categories and tags;
    - the remapping of old term and parent ids to new term ids;
    - the filter that turns legacy catalog rows into term relationships;
    - the detection of legacy storefront pages by shortcode.
  - The path rules of `ShoppAddon_Upgrader`:
    - the add-on directory by type in `addon_core_updates`;
    - how `install_package` resolves source and destination, with all its
      error exits and the protected-directory rule;
    - the `destination_name` normalisation;
    - the `destination_selector` filter.
- **`core/model/Catalog.php`**
  - Loading categories, including the `children` flag.
  - The order in which smart categories are added.
  - The `tagcloud` markup and its levels.
  - The `categories` template loop.
  - The `category-list` markup, both as nested lists and as a drop-down menu.

The host stays abstract:

- The database is the maps, sets and sequences the code reads and writes.
- Query results are sequences of records.
- The filesystem is a snapshot:
  - `dirlist` is a sequence of names;
  - `is_dir`, `exists` and `find_folder` are functions;
  - the outcomes of `mkdir`, `copy_dir` and `delete` are given.
- Each WordPress filter is a function or a fixed outcome.

Code that updates state step by step is imperative Dafny:

- a class with `modifies` clauses;
- `while` loops with invariants;
- each method proved equal to a specification function.

Properties are proved about those functions as lemmas.

Modules:

- `Wrappers`: `Option` and `Result`.
- `Strings`: the PHP and WordPress string and path helpers used.
  - PHP: `strpos`, `str_replace`, `str_repeat`, `trim`, `basename`, `dirname`.
  - WordPress: `trailingslashit`.
- `Upgrades`: `upgrades`, `upgrade_120` gating, `roles`.
- `TermSlugs`: the slug probe of `upgrade_120`.
- `TaxonomyMigration`: the term loop and the relationship loop.
- `LegacyPages`: the storefront-page scan.
- `AddonUpgrader`: `addon_core_updates`, `install_package`, `destination_selector`.
- `CatalogMarkup`: the `tagcloud` and `category-list` markup.
- `Catalog`: the category array, `load_categories`, `smart_categories`, and the `categories` loop.

## Model

| member | source | states |
|---|---|---|
| Upgrades.Installer.Upgrades | core/flow/Install.php:180-196 | The effective version is `db_version`, or the legacy value when that is 0. The log grows by exactly `UpgradePlan` for that version. Settings change (`shopp_setup` cleared, `maintenance` on) only when an upgrade runs. |
| Upgrades.NoOpUpgrade | core/flow/Install.php:182-186 | Nothing is done if and only if the effective version equals the current one. |
| Upgrades.UpgradeOrder | core/flow/Install.php:188-195 | When an upgrade runs: the two settings come first, then `upschema`, then `upgrade_110` if and only if v < 1100, then `upgrade_120` if and only if v < 1200, in that order. |
| Upgrades.Upgrade120Gates | core/flow/Install.php:519-734 | Settings move if and only if v <= 1130. The later sections run against the re-read version, with thresholds 1121, 1131, 1132 and 1133. Each section that runs implies every later one runs. Roles are always set up last. |
| Upgrades.CsrCapabilities | core/flow/Install.php:259 | The customer-service capabilities are exactly `shopp_customers`, `shopp_orders`, `shopp_menu` and `read`. |
| Upgrades.NestedCapabilities | core/flow/Install.php:259-278 | csr ⊆ merchant ⊆ administrator. `shopp_financials` is merchant-only over csr, and `shopp_settings` is administrator-only over merchant. |
| Upgrades.RoleRegistry.RemoveRole | core/flow/Install.php:279-280 | The role disappears from both the capabilities and the display names. |
| Upgrades.RoleRegistry.AddCap | core/flow/Install.php:284 | Adds the capability to an existing role; an unknown role is left unchanged. |
| Upgrades.RoleRegistry.AddRole | core/flow/Install.php:286 | Creates the role with exactly the given capabilities and name, unless it already exists. |
| Upgrades.InstallRole | core/flow/Install.php:283-287 | An existing role gains every listed capability. A new role gets them, plus its name. |
| Upgrades.InstallRoles | core/flow/Install.php:279-288 | The registry ends as the three Shopp roles granted in order, over the registry with csr and merchant removed. |
| Upgrades.RolesOutcome | core/flow/Install.php:255-289 | Merchant and csr hold exactly their lists. The administrator keeps its capabilities and gains every administrator capability. The role set gains exactly the three roles. |
| Upgrades.RolesKeepOthers | core/flow/Install.php:279-288 | Every other role keeps its capabilities. |
| Upgrades.RoleNamesOutcome | core/flow/Install.php:258-287 | The Shopp roles get their display names. An existing administrator keeps its own name. |
| TermSlugs.AlternateDistinct | core/flow/Install.php:611 | Different probe numbers give different probes. |
| TermSlugs.ProbesGrow | core/flow/Install.php:609-613 | Each probe is new, so the probe loop never repeats itself. |
| TermSlugs.FirstFreeIsFirst | core/flow/Install.php:609-613 | The probe loop's result is unused, and every earlier probe is used. |
| TermSlugs.ChosenSlugCorrect | core/flow/Install.php:603-614 | The slug chosen is unused. It is the (sanitised) base when that is free, and otherwise `base-n` for the least n >= 2 whose probe is free. |
| TermSlugs.SlugChoiceUnique | core/flow/Install.php:603-614 | That description admits only one slug. |
| TermSlugs.ProbeSlug | core/flow/Install.php:609-613 | The do-while loop returns the first free probe from `slug-2` on. |
| TermSlugs.ChooseSlug | core/flow/Install.php:603-614 | The slug a term is inserted with is the chosen slug for its base slug. |
| TaxonomyMigration.TermStore.InsertTerm | core/flow/Install.php:622-623 | The row is appended, its slug is in use from then on, and the returned id is the next auto-increment id. |
| TaxonomyMigration.TermStore.InsertTermTaxonomy | core/flow/Install.php:630-646 | The row is appended and the next auto-increment id is returned. |
| TaxonomyMigration.MigrateTerm | core/flow/Install.php:596-647 | One term gets a free slug and a terms row. Its old id maps to the new id in its taxonomy, and the new id maps to the new term-taxonomy id. |
| TaxonomyMigration.MigrateStep | core/flow/Install.php:596-648 | One pass of the term loop carries the tables and maps described after i terms to those after i + 1. |
| TaxonomyMigration.MigrateTerms | core/flow/Install.php:590-649 | After the loop, the maps, the counters and the inserted rows are exactly those the specification functions give for all terms in order. |
| TaxonomyMigration.MappingLookup | core/flow/Install.php:623 | An old id is mapped in a taxonomy if and only if some term of that taxonomy had it. It maps to the new id of the last such term. |
| TaxonomyMigration.MappingInjective | core/flow/Install.php:623 | Different old ids of one taxonomy never share a new id. |
| TaxonomyMigration.TaxonomyRowsIndex | core/flow/Install.php:627-646 | Row i belongs to new term `base + i`. It has the term's taxonomy and description and the looked-up parent. |
| TaxonomyMigration.ParentRemapped | core/flow/Install.php:627 | A parent already mapped in the same taxonomy (this term included) becomes the new id of the last term with that old id. |
| TaxonomyMigration.ParentKept | core/flow/Install.php:627 | A parent that no earlier term of the taxonomy had stays as it is. |
| TaxonomyMigration.TtIdsLookup | core/flow/Install.php:625-647 | Every new term's term-taxonomy id is recorded under its taxonomy. |
| TaxonomyMigration.TtIdsKeys | core/flow/Install.php:625-647 | Only new term ids are keys of the term-taxonomy map, each under its own taxonomy. |
| TaxonomyMigration.NewRowsPrefix | core/flow/Install.php:622 | The rows inserted for the first j terms are a prefix of those for the first n. |
| TaxonomyMigration.NewRowAt | core/flow/Install.php:603-622 | The j-th new row keeps its term's name. Its slug is the chosen slug against the old slugs plus those inserted before it. |
| TaxonomyMigration.NewSlugsFresh | core/flow/Install.php:603-622 | No new slug was in use before, and the new slugs are pairwise distinct. |
| TaxonomyMigration.WpTaxonomy | core/flow/Install.php:654-659 | The entry is `shopp_category` if and only if the key is 0 or `category`, and `shopp_tag` if and only if it is 1 or `tag`. |
| TaxonomyMigration.RelationshipsMembers | core/flow/Install.php:670-681 | A pair is inserted if and only if some row yields it. |
| TaxonomyMigration.RelationshipOfMigrated | core/flow/Install.php:670-680 | A selected row whose old term was migrated is linked to that term's term-taxonomy id. The exceptions: the id is 0, or no product post was joined. |
| TaxonomyMigration.RelationshipOfUnknown | core/flow/Install.php:672-675 | A row whose old term id no term of its taxonomy had is skipped. |
| TaxonomyMigration.LinkProducts | core/flow/Install.php:670-681 | The loop inserts exactly the relationships of the rows, in order. |
| LegacyPages.Bracketed | core/flow/Install.php:724 | Trimming the brackets off `[w]` gives back `w`. |
| LegacyPages.ShortcodeName | core/flow/Install.php:715-724 | The k-th shortcode is `[name]` for the k-th page name, and trimming gives back that name. |
| LegacyPages.PageNamesDistinct | core/flow/Install.php:715 | The four page names are distinct. |
| LegacyPages.PostPagesLookup | core/flow/Install.php:722-726 | A post records `name` if and only if it contains `[name]`; otherwise it leaves the entry as it was. |
| LegacyPages.PagesLookup | core/flow/Install.php:719-727 | A page name is recorded if and only if some post contains its shortcode. The entry is that of the last such post. |
| LegacyPages.PagesKeys | core/flow/Install.php:722-726 | Only searched-for names are recorded. |
| LegacyPages.ScanPost | core/flow/Install.php:722-726 | The shortcode loop for one post gives `PostPages` for the four names. |
| LegacyPages.DetectLegacyPages | core/flow/Install.php:719-727 | Every found page goes to the trash, in order. The recorded pages are `PagesAfter` for all posts. |
| LegacyPages.StorefrontPages | core/flow/Install.php:715-727 | Each storefront page is recorded if and only if some page embeds its shortcode, and it is the last such page. |
| AddonUpgrader.AddonDir | core/flow/Install.php:1101-1106 | `/shopp/gateways`, `/shopp/shipping` and `/shopp/storage` by type, and `/` for any other type. |
| AddonUpgrader.CoreAddonRuns | core/flow/Install.php:1092-1117 | One run per add-on, in order, into the working core plus its type's directory, numbered k + 1 of the total. |
| AddonUpgrader.CoreAddonProtected | core/flow/Install.php:1312-1315 | A known type's destination is protected when the host's add-on directories are named like the working core's. |
| AddonUpgrader.DestinationName | core/flow/Install.php:1361-1363 | The name holds no `/` and is never `.`. |
| AddonUpgrader.DestinationNameUnchanged | core/flow/Install.php:1361-1363 | A destination left unchanged names no folder. |
| AddonUpgrader.DestinationNameAppended | core/flow/Install.php:1316-1363 | A destination extended by the protected-directory rule names the appended folder. This holds when the appended text does not contain the original destination again. |
| AddonUpgrader.FolderBasename | core/flow/Install.php:1316-1317 | The basename of `sep folder/` is `folder`. |
| AddonUpgrader.NameAfterDestination | core/flow/Install.php:1361 | Removing the local destination from itself followed by `rest` leaves the basename of `rest`, when `rest` does not contain it. |
| AddonUpgrader.ResolveSource | core/flow/Install.php:1288-1309 | Returns `bad_package` if and only if the listing is empty. A single folder is installed from inside. For a non-empty listing it succeeds if and only if the source filter does; the filter's error is returned as it is, and the files are re-listed from the resulting source. |
| AddonUpgrader.PrepareError | core/flow/Install.php:1320-1347 | A single-file source never fails here. Any error is the clear-destination filter's, `remove_old_failed`, `folder_exists` for the remote destination, or `mkdir_failed` for it. |
| AddonUpgrader.PrepareDestination | core/flow/Install.php:1320-1347 | The old destination is deleted if and only if it is a folder and clearing is asked for. `folder_exists` is returned, and the working folder deleted, if and only if that folder is non-empty and not cleared. `remove_old_failed` is returned if and only if the clear filter reports a failed deletion. The error is exactly `PrepareError`'s; a single-file source skips all of this. |
| AddonUpgrader.CopyPackage | core/flow/Install.php:1349-1374 | Success if and only if the copy and the post-install filter succeed. A failed copy returns its error, and otherwise a failed post-install filter returns its own. The result record holds the source, the files, the three destinations, the destination name and `clear_destination`. |
| AddonUpgrader.InstallPackage | core/flow/Install.php:1267-1375 | `bad_request` if and only if the source or destination is empty. After that guard, the pre-install filter's error is returned. `bad_package` if and only if the listing is empty after both. Then the source filter's error, `PrepareError`'s error for the protected remote destination, the copy's error, and the post-install filter's error, each when every earlier step passed. Success if and only if every step passes. The protected-directory rule applies to both destinations. The deletions are the old destination (when cleared) and then the working folder (when asked for), at most two. |
| AddonUpgrader.DestinationSelector | core/flow/Install.php:1386-1393 | The destination is unchanged if and only if its basename does not contain `.tmp`. |
| AddonUpgrader.DestinationSelectorCuts | core/flow/Install.php:1389-1390 | A `.tmp` destination becomes its parent with one trailing `/`. That parent is shorter, a prefix of the path, and followed only by separators and the basename. A path without `/` becomes `./`. |
| Strings.ContainsIff | core/flow/Install.php:1389 | The `strpos` search succeeds if and only if the needle occurs in the string. |
| Strings.DirnameIsParent | core/flow/Install.php:1390 | `dirname` is the path up to its last separator, without trailing separators, or `.` when there is none. |
| Strings.BasenameAfterSeparator | core/flow/Install.php:1316-1317 | The basename of `q c` and of `q c/` is `c`. |
| Strings.NatToStringRoundTrip | core/model/Catalog.php:96 | Reading back the printed digits of a number gives the number. |
| CatalogMarkup.RoundHalfAwayNearest | core/model/Catalog.php:93 | The exact `round` of a / b is the nearest integer, with halves rounded away from zero. |
| CatalogMarkup.LevelOfMax | core/model/Catalog.php:93 | A tag with the largest count is at level 1. |
| CatalogMarkup.LevelOfZero | core/model/Catalog.php:93 | A tag without products is at level `levels + 1`. |
| CatalogMarkup.LevelMonotone | core/model/Catalog.php:93 | More products never give a higher level. |
| CatalogMarkup.LevelBounds | core/model/Catalog.php:83-93 | Every level lies in [1, levels + 1]. |
| CatalogMarkup.TagNameEncoding | core/model/Catalog.php:94-95 | The encoded name has no space. Decoding `+` gives the name back when it had no `+`. |
| CatalogMarkup.MaxProductsIsMax | core/model/Catalog.php:86-90 | The result is -1 if and only if there are no tags. Otherwise it is a count some tag has, and no tag has more. |
| CatalogMarkup.MinProductsIsMin | core/model/Catalog.php:86-90 | The result is -1 if and only if there are no tags. Otherwise it is a count some tag has, and no tag has less. |
| CatalogMarkup.Extremes | core/model/Catalog.php:86-90 | The min/max loop computes those two values. |
| CatalogMarkup.MaxProductsZero | core/model/Catalog.php:89-93 | For non-empty tags, the largest count is 0 if and only if no tag has products. |
| CatalogMarkup.TagCloud | core/model/Catalog.php:82-99 | The opening tag, one line per tag in order with its level against the largest count and its link, then `</ul>`. |
| CatalogMarkup.CloudWithoutProducts | core/model/Catalog.php:86-93 | When no tag has products, the largest count is 0 and every tag is at level `levels + 1`, as PHP 5's division by zero gives. |
| CatalogMarkup.CloudLines | core/model/Catalog.php:92-97 | One cloud line per tag, in order. |
| CatalogMarkup.CategoryList | core/model/Catalog.php:130-191 | The title (cleared when PHP-empty), then the menu or the nested list. |
| CatalogMarkup.DropdownMenu | core/model/Catalog.php:132-165 | The menu head, one option per category, then the script. |
| CatalogMarkup.MenuEntry | core/model/Catalog.php:143-151 | One category's option. |
| CatalogMarkup.MenuOptions | core/model/Catalog.php:136-153 | Option i of the menu is category i's own option. |
| CatalogMarkup.MenuPadding | core/model/Catalog.php:143 | An option's padding is `depth` times three `&nbsp;` entities, 18 characters per level. |
| CatalogMarkup.NestedList | core/model/Catalog.php:166-191 | The list body over the categories, the closing tags for the depth left open, and the outer tags. |
| CatalogMarkup.ListEntry | core/model/Catalog.php:168-186 | What one category emits after a category at depth `depth`. |
| CatalogMarkup.ListBodyItems | core/model/Catalog.php:168-187 | The items of the body are the shown categories' items, in order. |
| CatalogMarkup.ListBodyLevels | core/model/Catalog.php:169-174 | With hierarchy: one opening tag per rise in depth and one closing tag per fall, whatever the size of the drop. Without hierarchy: none. |
| CatalogMarkup.CopiesShape | core/model/Catalog.php:188-189 | The final closes are k closing tags, with no item and no opening tag. |
| CatalogMarkup.DepthBalance | core/model/Catalog.php:169-186 | rises + the excess of rises beyond one level = falls + the final depth + the excess of drops beyond one level. |
| CatalogMarkup.SmallSteps | core/model/Catalog.php:169-174 | With steps of at most one level, both excesses are 0. |
| CatalogMarkup.ListTotals | core/model/Catalog.php:166-190 | The whole list's items, its number of opening tags (the rises), and its number of closing tags after the categories (falls plus the final depth). |
| CatalogMarkup.ListNesting | core/model/Catalog.php:166-191 | The list shows exactly the shown items. With hierarchy, opening and closing tags balance up to the excess of jumps of more than one level, and exactly when every step is at most one. Without hierarchy there are none. |
| Catalog.PutGet | core/model/Catalog.php:36-41 | After `$a[$k] = $v`, k yields v and every other key keeps its value. The keys stay in place, with a new key last. |
| Catalog.NextKeyAbove | core/model/Catalog.php:57 | `array_push` uses a key above every key, so a new one. |
| Catalog.Renumber | core/model/Catalog.php:56 | A renumbered array is well-formed, keyed 0 to n − 1, and holds the same values. |
| Catalog.LoadRowStep | core/model/Catalog.php:36-42 | One row: its id holds the populated category, with children if and only if it names itself as parent with more than one product. Another loaded key gains children if and only if this row names it with more than one product. |
| Catalog.LoadRowsHas | core/model/Catalog.php:35-36 | After loading, a key is present if and only if it was already there or is some row's id. |
| Catalog.LoadRowsValue | core/model/Catalog.php:35-42 | A category loaded from the rows is the last row with its id. It has children if and only if that row or a later one has more than one product and names it as parent. |
| Catalog.LoadRowsKept | core/model/Catalog.php:38-41 | A category already present that no row replaces keeps its value. It gains children if and only if some row with more than one product names it as parent. |
| Catalog.LoadRowsKeepsOrder | core/model/Catalog.php:35-36 | Loading never moves the keys already present; new keys come after them. |
| Catalog.Catalog.LoadCategories | core/model/Catalog.php:26-49 | The array is loaded from the rows in order. When `showsmarts` is `before` or `after`, the smart categories follow. The pointer resets only when something was unshifted. |
| Catalog.Catalog.SmartCategories | core/model/Catalog.php:51-59 | The array becomes `AddSmarts` of the made smart categories: unshift for `before`, push otherwise. |
| Catalog.SmartsInFront | core/model/Catalog.php:51-57 | With `before`, the smart categories end up first in reverse order, and the array is renumbered from 0. |
| Catalog.SmartsBefore | core/model/Catalog.php:18-57 | With `before`, the four smart categories read OnSale, New, Bestseller, Featured, ahead of the rest. |
| Catalog.SmartsAtEnd | core/model/Catalog.php:51-58 | Otherwise they are appended in listed order. |
| Catalog.SmartKeysAtEnd | core/model/Catalog.php:57 | They are appended under consecutive keys starting at the next free key. |
| Catalog.Next | core/model/Catalog.php:105-119 | A loop step reports a current element if and only if the pointer is inside the array. |
| Catalog.LoopVisitsAll | core/model/Catalog.php:105-119 | From outside a loop, the k-th call makes element k − 1 current. Call n + 1 reports the end and clears the flag. The next call starts over at the first element. |
| Catalog.Catalog.Categories | core/model/Catalog.php:104-120 | The flag and pointer move as `Next` does. The result is the flag, and the selected category is the current element or nothing. |
| Catalog.Catalog.CategoryListTag | core/model/Catalog.php:121-192 | Categories are loaded only when the array is empty. The markup is `CategoryList` over the array's values, in order. Afterwards the pointer is past the last element, and the loop flag and the selected category are unchanged. |

## Left out

- SQL and host persistence are abstract. This covers:
  - `install`, `upschema`/`dbDelta` and the migrations' own INSERT/UPDATE statements;
  - the product-to-post copy, price and meta moves, and the `trash` UPDATE;
  - the queries of `load_tags` and `load_categories`.
  Query results are inputs, and a migration step is recorded only by name.
- `term_group` handling in the slug loop is not modelled. It does not affect which slug is chosen.
- TermSlugs.ChooseSlug: exact only for slugs without `'` or `\`, because `DB::escape` is not modelled. A tag slug is the raw tag name when it has no space (core/flow/Install.php:603). For a slug with a quote, the existence query at core/flow/Install.php:606 interpolates the unescaped slug and is malformed, so it finds nothing and no probing happens, even for a slug already in use. On the probing path, the escaped text (`o\'brien-2`) is what is stored.
- The terms table's slug comparison is exact string equality. The host's case-insensitive collation is not modelled.
- The search for legacy pages is a query that is not modelled: the found pages are an input. Within each page, shortcodes are found by exact substring search, as `strpos` does.
- The category meta copies, `wp_update_term_count_now` and the `shopp_category_children` option are host calls without results that the modelled code reads.
- HTTP download, unpacking and the filesystem are not modelled: `download_url`, `unpack_package`, `copy_dir`, `delete`, `mkdir` and `fs_connect`. Their outcomes are inputs.
- `install_package`'s result record lists three names that are never set: `local_source`, `source_name` and `delete_source_dir`. They are left out of the result value. `remote_source` is set but is not in the record.
- `source_selector` is not modelled. The source filter is an input function of `install_package`.
- `destination_selector` is registered on `upgrader_destination_selection`, but the overriding `install_package` never applies that filter. The model keeps the two apart as the code does.
- `upgrade()`'s switch of the add-on directory and `run()`'s adjustment of the destination are not modelled. Neither is the upgrader skin's output.
- PHP arrays are modelled as key sequences with values at the same positions.
  - The internal pointer is a position, with PHP 5 semantics: this code targets PHP 5 (the PHP 4 style constructor, `split()`). `array_unshift` resets the pointer. Loading iterates a local array and leaves it where it was. The by-reference `foreach` of `category-list` leaves it past the last element; from PHP 7 on it would stay where it was.
  - `NextKey` takes one past the largest non-negative key, and 0 when there is none. Category ids are positive, so the newer rule for negative keys is not modelled.
- The `$parent->path` assignment in `category-list` sets a property that nothing in the modelled code reads.
- `value_is_true` is applied by the caller: the list options are booleans. `showsmart` is compared as a string, so PHP's loose comparison of a boolean `true` with `"before"` is not modelled.
- `SHOPP_PERMALINKS` is a field of the list options and a case of the tag link base.
- `load_tags` and the smart-category constructors are not modelled. In both the results are inputs: the tags, and the made smart categories in `Smarts` order.
- `sort_tree` is not modelled: the category rows arrive in tree order.
- The `has-categories`, `category`, `product`, `views`, `orderby-list` and `breadcrumb` template cases depend on request globals and templates. They are not modelled.
- `tagcloud` divides by a largest count of 0 when every tag has no products. The model follows PHP 5: a warning, whose output is not modelled, and the value `false`, so every tag is at level `levels + 1`. PHP 7 would give `NAN` there, and PHP 8 a `DivisionByZeroError`.
- PHP `round` on floats is modelled as exact rational rounding, with halves away from zero. Float artefacts are not modelled.
- The role display names are the English strings. The translation done by `__()` is not modelled.
- `activate`, `deactivate`, `install_pages`, `setup`, `update()` and `upgrade_110`'s serialisation are host settings and UI. They are not modelled.
