# WP 2FA sensor of the security audit log

This project models the sensor that writes audit-log events about the WP 2FA
plugin: `WP_2FA_Sensor` in `classes/WPSensors/class-wp-2fa-sensor.php`.

- **Policy changes.** When the `wp_2fa_policy` option is updated,
  `settings_trigger` compares the old and new option arrays. It builds a batch
  of events from six rules, in a fixed order:
  - the enforcement policy (7800 or 7801);
  - the four role and user lists (7802 or 7803);
  - one toggle per 2FA provider (7804);
  - trusted devices (7805);
  - the trusted-devices period (7806);
  - the password-reset screen (7807).

  It then hands the batch to `Alert_Manager::trigger_event` in that order.
- **User-meta changes.** `store_user_meta` runs before WordPress writes a user's
  meta and caches the stored value of `wp_2fa_enabled_methods`.
  - `user_trigger` runs after the write. It reports a first enabling (7808) or a
    change of method (7809), a lock (7811), and added (7813) or regenerated (7814)
    backup codes.
  - `user_deletions_trigger` runs before a deletion. It reports removal of the
    2FA status (7810) and an unlock (7812).
  - `login_actions_trigger` reports a login made with a backup code (7815).

Files:

- `php_values.dfy` (`PhpValues`): the PHP values the sensor compares, and the
  built-ins it relies on.
  - `empty()`, `isset()`, and reading a missing key, which gives null.
  - `??`, and strict `!==`, which is structural inequality.
  - PHP 8 `implode()`, which throws a `TypeError` when its argument is not an
    array. The source file declares `strict_types=1`.
- `alerts.dfy` (`Alerts`):
  - one `Alert` constructor per event kind, and the code and variable array each
    one is sent with;
  - the edit-user link;
  - `Select`, which picks the alerts of one code out of a batch, and the
    predicates that state the order of a batch.
- `policy_classifier.dfy` (`PolicyClassifier`): `settings_trigger`'s rules as
  pure functions. `Classify` gives the whole batch, or the `TypeError` that
  aborts the handler before anything is dispatched.
- `policy_properties.dfy` (`PolicyProperties`): what the batch holds, rule by
  rule, and the batch as a whole.
  - Rule by rule: what it contains and when each rule fires.
  - As a whole: its order, the `TypeError` case, the no-change case, and the
    keys it depends on.
- `user_meta.dfy` (`UserMetaClassifier`): the alerts of `store_user_meta`'s cache,
  `user_trigger`, `user_deletions_trigger` and `login_actions_trigger` as pure
  functions.
- `user_meta_properties.dfy` (`UserMetaProperties`): which write, deletion or
  login is reported, and how.
  - How the cache decides between 7808 and 7809.
  - The ten-code rule for regenerated backup codes.
  - The edit link names exactly one user.
- `sensor.dfy` (`TwoFactorSensor`): class `Sensor`.
  - It holds the static cache `$old_user_meta` as a field, and records every
    `trigger_event` call in a log.
  - Each hook handler is a method that mirrors the handler's branches. It is
    proved to append exactly the events of the function that specifies it.

WordPress itself is a set of parameters:

- the user-meta table stands for `get_user_meta`;
- a map of users stands for `get_userdata`;
- the request parameters stand for `$_REQUEST`;
- a `Registry` value stands for the 2FA plugin's settings controller (`Settings::get_providers()` and the providers' display names).

The provider rule follows the code. When the settings controller class does not
exist, the code reports no 7804 event at all. The legacy table of ten
provider fields (lines 135-146) is not a fallback for a missing controller. It
is used for each registry entry whose key is not the name of an existing class.

## Model

| member | source | states |
|---|---|---|
| PhpValues.IsEmpty | classes/WPSensors/class-wp-2fa-sensor.php:105 | `empty()` holds exactly for null, false, 0, "", "0" and the empty array |
| PhpValues.IsSet | classes/WPSensors/class-wp-2fa-sensor.php:162 | `isset($r[$key])` holds iff the key is present and its value is not null |
| PhpValues.Coalesce | classes/WPSensors/class-wp-2fa-sensor.php:176 | `$r[$key] ?? $default` is the stored value when it is set, the default otherwise |
| PhpValues.Implode | classes/WPSensors/class-wp-2fa-sensor.php:105-106 | `implode(', ', $v)` succeeds iff `$v` is an array, and then joins the string forms of its elements with the separator; anything else is a `TypeError` |
| Alerts.ToEvent | classes/WPSensors/class-wp-2fa-sensor.php:84-363 | each alert is sent with its own code and the variable array its call site builds (`new_policy`; `changed_list`/`old_list`/`new_list`; `method`/`EventType`; ...); the event's code is the alert's code |
| Alerts.ToEventInjective | classes/WPSensors/class-wp-2fa-sensor.php:84-363 | every value an alert reports reaches `trigger_event`: two alerts that produce the same event are the same alert |
| Alerts.EditUserLink | classes/WPSensors/class-wp-2fa-sensor.php:213 | the edit link is the `user-edit.php` page followed by `?user_id=` and the user id in decimal |
| Alerts.EventType | classes/WPSensors/class-wp-2fa-sensor.php:155 | the `EventType` variable is 'enabled' iff the new value is non-empty, and 'disabled' iff it is empty |
| PolicyClassifier.Classify | classes/WPSensors/class-wp-2fa-sensor.php:72-193 | an option other than `wp_2fa_policy` yields no alerts; a policy batch holds at most 8 alerts plus one per registered provider |
| PolicyClassifier.EnforcementAlerts | classes/WPSensors/class-wp-2fa-sensor.php:81-94 | the enforcement rule emits at most one alert, with code 7800 or 7801 |
| PolicyClassifier.ListText | classes/WPSensors/class-wp-2fa-sensor.php:105-106 | a list's text can be built iff the list is empty or an array; an empty list reads "None provided", a non-empty array its ", "-joined elements |
| PolicyClassifier.ListEntry | classes/WPSensors/class-wp-2fa-sensor.php:104-115 | one list contributes at most one alert |
| PolicyClassifier.ListAlerts | classes/WPSensors/class-wp-2fa-sensor.php:103-116 | the four lists contribute at most one alert each |
| PolicyClassifier.PolicyField | classes/WPSensors/class-wp-2fa-sensor.php:123-149 | a resolved provider field is non-empty; for an entry whose key names no class, a field resolves iff the provider is in the ten-entry legacy table |
| PolicyClassifier.ProviderFires | classes/WPSensors/class-wp-2fa-sensor.php:151 | a provider whose field does not resolve never fires; one whose field resolves fires whenever the old field is unset, and otherwise iff the old and new field values differ |
| PolicyClassifier.ProviderAlerts | classes/WPSensors/class-wp-2fa-sensor.php:122-159 | the provider loop emits at most one alert per provider, all of them 7804 toggles |
| PolicyClassifier.RegistryAlerts | classes/WPSensors/class-wp-2fa-sensor.php:118-160 | the provider rule emits at most one alert per registered provider |
| PolicyClassifier.TrustedDevicesAlerts | classes/WPSensors/class-wp-2fa-sensor.php:162-170 | at most one alert, with code 7805 |
| PolicyClassifier.TrustedDevicesPeriodAlerts | classes/WPSensors/class-wp-2fa-sensor.php:172-180 | at most one alert, with code 7806 |
| PolicyClassifier.PasswordResetShowAlerts | classes/WPSensors/class-wp-2fa-sensor.php:182-188 | at most one alert, with code 7807 |
| PolicyProperties.ListAlertsOk | classes/WPSensors/class-wp-2fa-sensor.php:103-116 | the list alerts can be built iff every changed list is empty or an array, on both sides |
| PolicyProperties.ListAlertsUnchanged | classes/WPSensors/class-wp-2fa-sensor.php:104 | lists that did not change give no alerts |
| PolicyProperties.ListAlertsExact | classes/WPSensors/class-wp-2fa-sensor.php:103-116 | the list alerts are, in table order, exactly one alert per changed list, with the list's code and caption and both lists as text |
| PolicyProperties.ListAlertsAscending | classes/WPSensors/class-wp-2fa-sensor.php:96-101 | because the table lists 7802 before 7803, the list alerts' codes never decrease |
| PolicyProperties.ProviderAlertsExact | classes/WPSensors/class-wp-2fa-sensor.php:122-159 | the provider alerts are, in registry order, exactly one toggle alert per provider that fires, carrying its display name and EventType |
| PolicyProperties.ProviderAlertsFire | classes/WPSensors/class-wp-2fa-sensor.php:151-158 | a provider's toggle alert is present iff the provider fires; every provider alert belongs to a firing provider; there are none iff no provider fires |
| PolicyProperties.ClassifyEnforcement | classes/WPSensors/class-wp-2fa-sensor.php:81-94 | the batch holds 7801 with the raw new policy iff the policy changed to "do-not-enforce"; it holds 7800 iff the policy changed to anything else, labelled "Enforce on all users" iff the new policy is "all-users" |
| PolicyProperties.EnforcementOnly | classes/WPSensors/class-wp-2fa-sensor.php:81-94 | no rule but the enforcement rule emits 7800 or 7801 |
| PolicyProperties.ClassifyListSelect | classes/WPSensors/class-wp-2fa-sensor.php:96-116 | the 7802 and 7803 alerts of the batch are exactly those of the list rule, in table order |
| PolicyProperties.ClassifyListMembers | classes/WPSensors/class-wp-2fa-sensor.php:96-116 | the list alerts in the batch are exactly the alerts of the list rule |
| PolicyProperties.ClassifyListFires | classes/WPSensors/class-wp-2fa-sensor.php:103-115 | the batch reports a list iff the list changed (strictly, so reordering counts), and then with both lists as text |
| PolicyProperties.ChangedListReported | classes/WPSensors/class-wp-2fa-sensor.php:104-114 | a changed list can be printed and its report is among the list alerts |
| PolicyProperties.ReportedListChanged | classes/WPSensors/class-wp-2fa-sensor.php:104-114 | a list alert carrying a list's caption means that list changed |
| PolicyProperties.ClassifyProviders | classes/WPSensors/class-wp-2fa-sensor.php:118-160 | the 7804 alerts of the batch are exactly the provider rule's; there are none when the settings controller is absent |
| PolicyProperties.ClassifyToggles | classes/WPSensors/class-wp-2fa-sensor.php:162-188 | 7805 and 7806 fire iff the new key is set and the old one is unset or different; 7806's old value defaults to ""; 7807 fires iff both keys are set and different, so it never reports a first setting |
| PolicyProperties.ToggleOnly | classes/WPSensors/class-wp-2fa-sensor.php:162-188 | each of 7805, 7806 and 7807 comes from its own rule alone |
| PolicyProperties.ClassifyAscending | classes/WPSensors/class-wp-2fa-sensor.php:79-192 | the batch is in rule order (enforcement, lists, providers, 7805, 7806, 7807), so its codes never decrease |
| PolicyProperties.BatchAscending | classes/WPSensors/class-wp-2fa-sensor.php:79-188 | six rule outputs, each within its own band of codes, concatenate in ascending order |
| PolicyProperties.ClassifyTypeError | classes/WPSensors/class-wp-2fa-sensor.php:103-116 | the handler aborts with a `TypeError` iff the option is the policy and some changed list is neither empty nor an array |
| PolicyProperties.ProviderFiresIdentical | classes/WPSensors/class-wp-2fa-sensor.php:151 | on identical snapshots a provider fires iff its field resolves and is unset |
| PolicyProperties.ClassifyIdentical | classes/WPSensors/class-wp-2fa-sensor.php:72-193 | identical snapshots give an empty batch iff every resolved provider field is set; an unset one yields a 7804 'disabled' alert |
| PolicyProperties.ListAlertsAgree | classes/WPSensors/class-wp-2fa-sensor.php:103-116 | the list alerts depend only on the lists' keys |
| PolicyProperties.ProviderAlertsAgree | classes/WPSensors/class-wp-2fa-sensor.php:122-159 | the provider alerts depend only on the resolved provider fields |
| PolicyProperties.ListsReadWatched | classes/WPSensors/class-wp-2fa-sensor.php:103-116 | snapshots that agree on the watched keys give the same list alerts |
| PolicyProperties.RegistryReadsWatched | classes/WPSensors/class-wp-2fa-sensor.php:118-160 | snapshots that agree on the watched keys give the same provider alerts |
| PolicyProperties.SingleRulesReadWatched | classes/WPSensors/class-wp-2fa-sensor.php:162-188 | rules 1 and 4-6 read only their own keys |
| PolicyProperties.ClassifyReadsWatched | classes/WPSensors/class-wp-2fa-sensor.php:72-193 | the batch depends only on the watched keys of the two snapshots |
| PolicyProperties.ClassifyUnrelatedChange | classes/WPSensors/class-wp-2fa-sensor.php:72-193 | a change confined to keys no rule reads gives an empty batch iff every resolved provider field is set |
| UserMetaClassifier.StoredMeta | classes/WPSensors/class-wp-2fa-sensor.php:334 | `get_user_meta($id, $key, true)` is the stored value, or "" when the user or the key has none |
| UserMetaClassifier.CountOf | classes/WPSensors/class-wp-2fa-sensor.php:252-254 | the count of an array is its number of entries; anything but an array counts 0 |
| UserMetaClassifier.StoreUserMetaCache | classes/WPSensors/class-wp-2fa-sensor.php:331-336 | a store for the enabled methods caches the value stored now under that key alone, whatever the user; it leaves the other keys alone; other meta keys leave the cache unchanged |
| UserMetaClassifier.UserTriggerAlerts | classes/WPSensors/class-wp-2fa-sensor.php:205-264 | a meta write yields at most one alert |
| UserMetaClassifier.DeletionAlerts | classes/WPSensors/class-wp-2fa-sensor.php:276-294 | a meta deletion yields at most one alert |
| UserMetaClassifier.LoginAlerts | classes/WPSensors/class-wp-2fa-sensor.php:343-367 | a login yields at most one alert |
| UserMetaProperties.UserTriggerReports | classes/WPSensors/class-wp-2fa-sensor.php:205-264 | a write is reported iff it is to the enabled methods or the lock flag, or to the backup codes when they are added or an update writes exactly ten |
| UserMetaProperties.EnabledMethodsAlert | classes/WPSensors/class-wp-2fa-sensor.php:207-224 | a write of the enabled methods is 7809 (new value, cached old value) iff the cache holds a non-empty earlier value, and 7808 (new value) otherwise |
| UserMetaProperties.BackupCodesAlerts | classes/WPSensors/class-wp-2fa-sensor.php:233-263 | an addition of backup codes is always 7813; an update is 7814 iff the value is an array of exactly ten codes; both carry the user's login, id and the codes |
| UserMetaProperties.StoreThenTrigger | classes/WPSensors/class-wp-2fa-sensor.php:331-336 | the cache is not keyed by user: after a store for user a, a write for any user b is reported against a's stored value |
| UserMetaProperties.StorePreservesCacheOnlyMethods | classes/WPSensors/class-wp-2fa-sensor.php:331-336 | the cache never holds a key other than the enabled methods |
| UserMetaProperties.FirstEnablingReported | classes/WPSensors/class-wp-2fa-sensor.php:216-223 | with nothing stored for the enabled methods, a store followed by the write reports 7808 |
| UserMetaProperties.DeletionReports | classes/WPSensors/class-wp-2fa-sensor.php:276-294 | a deletion is reported iff it is of the 2FA status (7810, with the enabled methods still stored, "" when none) or of the lock flag (7812) |
| UserMetaProperties.StatusRemovalReportsWrittenMethod | classes/WPSensors/class-wp-2fa-sensor.php:278-285 | after a user's enabled methods are written, removing their 2FA status reports the written value as the old method |
| UserMetaProperties.LockUnlockPair | classes/WPSensors/class-wp-2fa-sensor.php:225-231 | a lock flag write and its deletion report 7811 and 7812 with the same user link |
| UserMetaProperties.LoginReports | classes/WPSensors/class-wp-2fa-sensor.php:343-367 | a login is reported iff the request names the backup-codes provider and carries a backup code; the alert reports that code, the user's login and id |
| UserMetaProperties.NatToDecimalInjective | classes/WPSensors/class-wp-2fa-sensor.php:213 | distinct user ids written in decimal give distinct strings (non-negative case) |
| UserMetaProperties.IntToDecimalInjective | classes/WPSensors/class-wp-2fa-sensor.php:213 | distinct user ids written in decimal give distinct strings |
| UserMetaProperties.EditUserLinkInjective | classes/WPSensors/class-wp-2fa-sensor.php:213 | distinct users get distinct edit links |
| TwoFactorSensor.Sensor.constructor | classes/WPSensors/class-wp-2fa-sensor.php:39 | the cache starts empty and nothing has been triggered |
| TwoFactorSensor.Sensor.TriggerEvent | classes/WPSensors/class-wp-2fa-sensor.php:191 | one `trigger_event` call appends its event to the log |
| TwoFactorSensor.Sensor.Dispatch | classes/WPSensors/class-wp-2fa-sensor.php:190-192 | the closing loop appends the batch's events to the log, in batch order |
| TwoFactorSensor.Sensor.SettingsTrigger | classes/WPSensors/class-wp-2fa-sensor.php:72-193 | the log grows by exactly the events of `Classify`'s batch, in order; on a `TypeError` nothing is logged and the error escapes |
| TwoFactorSensor.Sensor.StoreUserMeta | classes/WPSensors/class-wp-2fa-sensor.php:331-336 | the cache becomes `StoreUserMetaCache` of the old cache, keeping the cache invariant |
| TwoFactorSensor.Sensor.UserTrigger | classes/WPSensors/class-wp-2fa-sensor.php:205-264 | the log grows by exactly the events of `UserTriggerAlerts` for the current cache |
| TwoFactorSensor.Sensor.UserDeletionsTrigger | classes/WPSensors/class-wp-2fa-sensor.php:276-294 | the log grows by exactly the events of `DeletionAlerts` |
| TwoFactorSensor.Sensor.LoginActionsTrigger | classes/WPSensors/class-wp-2fa-sensor.php:343-367 | the log grows by exactly the events of `LoginAlerts` |
| TwoFactorSensor.Sensor.WriteUserMeta | classes/WPSensors/class-wp-2fa-sensor.php:310-313 | one meta write, run through the hooks `early_init` registers (store before the write, trigger after it): the new cache is `StoreUserMetaCache` of the old one; the table gains exactly the written value for that user, keeping the user's other keys and every other user; the log grows by exactly `UserTriggerAlerts` for the refreshed cache, so a write of the enabled methods logs 7809 against the value stored before it when that value is non-empty, and 7808 otherwise |

## Left out

- Hook registration (`init`, `early_init`) is not modelled. `WriteUserMeta` takes
  the order of one write's hooks as given.
- The `update_site_option` registration on multisite is not modelled, nor the
  order of the arguments WordPress passes to it.
- `WP_2FA_Helper::add_custom_event_objects` and `is_wp2fa_active` are not part of
  this model.
- `Alert_Manager::trigger_event` is not modelled. Its internals (storage,
  filtering, notifications) are not part of this model. The sensor's view of it
  is the ordered log of `(code, variables)` pairs.
- `esc_html__` translation is not modelled. Labels are the untranslated English
  strings, with its HTML escaping applied: the 7800 label's `&` is sent as `&amp;`.
- `network_admin_url` is not modelled. The site's URL prefix is left out, and the
  edit link is `user-edit.php?user_id=<id>`.
- Floats and objects as option values or list elements are not modelled.
- PHP arrays whose keys are not 0..n-1 are not modelled. A list is a sequence, so a
  list re-keyed with the same values in the same order (which `!==` reports as
  changed, since it also compares keys) cannot be expressed.
- An option value that is not an array is not modelled. Both snapshots are string-keyed arrays.
- PHP 7's `implode` on a non-array (a warning and null) is not modelled. The
  model follows PHP 8, where it throws.
- `Registry`: provider classes and their `POLICY_SETTINGS_NAME` constant are
  modelled by their outcome only. An entry either resolves to a field name or
  resolves to none, and a missing constant (the caught `Error`) resolves to none.
- The PHP warnings for missing keys and for properties read on `false` (from
  `get_userdata`) are not modelled. The value read is modelled as null.
- WordPress's serialisation of meta values is not modelled. Meta values are PHP values.
- The user-unlock handler that is commented out in the source is not modelled.
