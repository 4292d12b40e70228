/**
  The policy path of the 2FA sensor (`settings_trigger`): given the old and
  the new value of the `wp_2fa_policy` option, the ordered batch of alerts
  7800-7807 that the sensor hands to the alert sink.

  `Classify` builds the batch from six rules applied in a fixed order; the
  lemmas at the end state what the batch holds for each rule, its order,
  when it is empty, and which keys of the snapshots it depends on.
 */
module PolicyClassifier {
  import opened PhpValues
  import opened Alerts

  const PolicyOption := "wp_2fa_policy"

  const EnforcementPolicyKey := "enforcement-policy"
  const DoNotEnforce := "do-not-enforce"
  const AllUsers := "all-users"
  const AllUsersLabel := "Enforce on all users"
  /** Sent through `esc_html__`, which escapes the ampersand. */
  const SpecificUsersLabel := "Only enforce on specific users &amp; roles"

  const NoneProvided := "None provided"
  const ListSeparator := ", "

  const TrustedDevicesKey := "enable_trusted_devices"
  const TrustedDevicesPeriodKey := "trusted-devices-period"
  const PasswordResetShowKey := "password-reset-2fa-show"

  const PolicyEnforcedCode := 7800
  const PolicyNotEnforcedCode := 7801
  const EnforcedListCode := 7802
  const ExcludedListCode := 7803
  const ProviderToggleCode := 7804
  const TrustedDevicesCode := 7805
  const TrustedDevicesPeriodCode := 7806
  const PasswordResetShowCode := 7807

  // ---------------------------------------------------------------------------
  // Rule 1: the enforcement policy

  /** The alert for a change of `enforcement-policy`: 7801 with the raw value when 2FA is no
      longer enforced, 7800 with a label otherwise; nothing when the value did not change. */
  function EnforcementAlerts(oldValue: Record, newValue: Record): (r: seq<Alert>)
    ensures |r| <= 1
    ensures r != [] ==> PolicyEnforcedCode <= Code(r[0]) <= PolicyNotEnforcedCode
  {
    var policy := Get(newValue, EnforcementPolicyKey);
    if policy == Get(oldValue, EnforcementPolicyKey) then []
    else if policy == Str(DoNotEnforce) then
      [PolicyAlert(PolicyNotEnforcedCode, policy)]
    else
      [PolicyAlert(PolicyEnforcedCode, Str(if policy == Str(AllUsers) then AllUsersLabel else SpecificUsersLabel))]
  }

  // ---------------------------------------------------------------------------
  // Rule 2: the four role and user lists

  /** One row of the table of watched lists: option key, alert code, label shown in the alert. */
  datatype ListRule = ListRule(key: string, code: int, caption: string)

  /** The watched lists, in the order the sensor visits them. */
  const ListTable: seq<ListRule> := [
    ListRule("enforced_roles", EnforcedListCode, "Enforced roles"),
    ListRule("enforced_users", EnforcedListCode, "Enforced users"),
    ListRule("excluded_roles", ExcludedListCode, "Excluded roles"),
    ListRule("excluded_users", ExcludedListCode, "Excluded users")
  ]

  /** The list under `rule.key` differs (strictly, so order matters) between the snapshots. */
  predicate ListChanged(rule: ListRule, oldValue: Record, newValue: Record) {
    Get(newValue, rule.key) != Get(oldValue, rule.key)
  }

  /** A value the list text can be built from without a `TypeError`. */
  predicate Printable(v: Value) {
    IsEmpty(v) || v.List?
  }

  /** `! empty($v) ? implode(', ', $v) : 'None provided'`. */
  function ListText(v: Value): (r: Result<string>)
    ensures r.Ok? <==> Printable(v)
    ensures IsEmpty(v) ==> r == Ok(NoneProvided)
    ensures !IsEmpty(v) && v.List? ==> r == Ok(Join(ListSeparator, ElementStrings(v.items)))
  {
    if IsEmpty(v) then Ok(NoneProvided) else Implode(ListSeparator, v)
  }

  /** What one rule of the table contributes: nothing when its list did not change, otherwise the
      alert with both lists as text, or the `TypeError` of building the old text, then the new one. */
  function ListEntry(rule: ListRule, oldValue: Record, newValue: Record): (r: Result<seq<Alert>>)
    ensures r.Ok? ==> |r.value| <= 1
  {
    if !ListChanged(rule, oldValue, newValue) then Ok([])
    else
      var oldList := ListText(Get(oldValue, rule.key));
      var newList := ListText(Get(newValue, rule.key));
      if oldList.TypeError? then TypeError(oldList.message)
      else if newList.TypeError? then TypeError(newList.message)
      else Ok([ListAlert(rule.code, rule.caption, oldList.value, newList.value)])
  }

  /** The list alerts of `rules`, in table order, or the `TypeError` of the first changed list
      whose text cannot be built. */
  function ListAlerts(rules: seq<ListRule>, oldValue: Record, newValue: Record): (r: Result<seq<Alert>>)
    ensures r.Ok? ==> |r.value| <= |rules|
    decreases |rules|
  {
    if rules == [] then Ok([])
    else
      match ListEntry(rules[0], oldValue, newValue)
      case TypeError(m) => TypeError(m)
      case Ok(first) =>
        match ListAlerts(rules[1..], oldValue, newValue)
        case TypeError(m) => TypeError(m)
        case Ok(rest) => Ok(first + rest)
  }

  /** The rules of `rules` whose list changed, in order. */
  function ChangedLists(rules: seq<ListRule>, oldValue: Record, newValue: Record): (r: seq<ListRule>)
    ensures |r| <= |rules|
    decreases |rules|
  {
    if rules == [] then []
    else (if ListChanged(rules[0], oldValue, newValue) then [rules[0]] else []) + ChangedLists(rules[1..], oldValue, newValue)
  }

  // ---------------------------------------------------------------------------
  // Rule 3: per-provider toggles

  /** How the key of an entry of the provider registry resolves. */
  datatype ProviderSlot =
      /** the key names an existing class; the value of its POLICY_SETTINGS_NAME constant, None when it has none */
    | ProviderClass(policyConstant: Option<string>)
      /** an integer key or a string that names no class: the legacy table decides */
    | LegacyKey

  /** One `$class => $provider` entry of `Settings::get_providers()`. */
  datatype ProviderEntry = ProviderEntry(slot: ProviderSlot, provider: string)

  /** The 2FA plugin's settings controller: absent, or present with its providers and their display names. */
  datatype Registry = NoRegistry | Registry(providers: seq<ProviderEntry>, names: map<string, string>)

  /** The field names older 2FA versions use for each provider key. */
  const LegacyPolicyFields: map<string, string> := map[
    "totp" := "enable_totp",
    "oob" := "enable_oob_email",
    "email" := "enable_email",
    "yubico" := "enable_yubico",
    "clickatell" := "enable_clickatell",
    "twilio" := "enable_twilio",
    "authy" := "enable_authy",
    "passkeys" := "enable_passkeys",
    "backup_codes" := "backup_codes_enabled",
    "backup_email" := "enable-email-backup"
  ]

  function ProvidersOf(registry: Registry): seq<ProviderEntry> {
    if registry.Registry? then registry.providers else []
  }

  /** The policy field that enables the provider, or "" when none resolves; a field that resolves
      is one `empty()` accepts. */
  function PolicyField(e: ProviderEntry): (r: string)
    ensures r == "" || !IsEmpty(Str(r))
    ensures e.slot.LegacyKey? ==> (r != "" <==> e.provider in LegacyPolicyFields)
  {
    match e.slot
    case ProviderClass(constant) =>
      if constant.Some? && !IsEmpty(Str(constant.value)) then constant.value else ""
    case LegacyKey =>
      if e.provider in LegacyPolicyFields then LegacyPolicyFields[e.provider] else ""
  }

  /** The toggle alert fires: a field resolves, and it was unset before or its value changed. */
  predicate ProviderFires(e: ProviderEntry, oldValue: Record, newValue: Record)
    ensures PolicyField(e) == "" ==> !ProviderFires(e, oldValue, newValue)
    ensures PolicyField(e) != "" && !IsSet(oldValue, PolicyField(e)) ==> ProviderFires(e, oldValue, newValue)
    ensures PolicyField(e) != "" && IsSet(oldValue, PolicyField(e)) ==>
              (ProviderFires(e, oldValue, newValue) <==> Get(oldValue, PolicyField(e)) != Get(newValue, PolicyField(e)))
  {
    var field := PolicyField(e);
    !IsEmpty(Str(field)) && (!IsSet(oldValue, field) || Get(oldValue, field) != Get(newValue, field))
  }

  /** `$names[$provider]`: null when the provider has no display name. */
  function DisplayName(names: map<string, string>, provider: string): Value {
    if provider in names then Str(names[provider]) else Null
  }

  /** The toggle alert of a provider: its display name, and whether its field is now on. */
  function ToggleAlertOf(e: ProviderEntry, names: map<string, string>, newValue: Record): Alert {
    ProviderToggleAlert(DisplayName(names, e.provider), EventType(Get(newValue, PolicyField(e))))
  }

  /** The toggle alerts of the providers, in registry order. */
  function ProviderAlerts(ps: seq<ProviderEntry>, names: map<string, string>, oldValue: Record, newValue: Record): (r: seq<Alert>)
    ensures |r| <= |ps|
    ensures forall k :: 0 <= k < |r| ==> r[k].ProviderToggleAlert?
    decreases |ps|
  {
    if ps == [] then []
    else
      (if ProviderFires(ps[0], oldValue, newValue) then [ToggleAlertOf(ps[0], names, newValue)] else [])
      + ProviderAlerts(ps[1..], names, oldValue, newValue)
  }

  /** The providers whose toggle alert fires, in registry order. */
  function FiringProviders(ps: seq<ProviderEntry>, oldValue: Record, newValue: Record): (r: seq<ProviderEntry>)
    ensures |r| <= |ps|
    decreases |ps|
  {
    if ps == [] then []
    else (if ProviderFires(ps[0], oldValue, newValue) then [ps[0]] else []) + FiringProviders(ps[1..], oldValue, newValue)
  }

  /** Rule 3 as a whole: nothing unless the settings controller is present. */
  function RegistryAlerts(registry: Registry, oldValue: Record, newValue: Record): (r: seq<Alert>)
    ensures |r| <= |ProvidersOf(registry)|
  {
    match registry
    case NoRegistry => []
    case Registry(ps, names) => ProviderAlerts(ps, names, oldValue, newValue)
  }

  // ---------------------------------------------------------------------------
  // Rules 4-6: trusted devices, their period, the password-reset screen

  /** The key is set in the new snapshot, and was unset or different in the old one. */
  predicate SetAndChanged(oldValue: Record, newValue: Record, key: string) {
    IsSet(newValue, key) && (!IsSet(oldValue, key) || Get(oldValue, key) != Get(newValue, key))
  }

  function TrustedDevicesAlerts(oldValue: Record, newValue: Record): (r: seq<Alert>)
    ensures |r| <= 1
    ensures r != [] ==> Code(r[0]) == TrustedDevicesCode
  {
    if SetAndChanged(oldValue, newValue, TrustedDevicesKey) then
      [TrustedDevicesAlert(EventType(Get(newValue, TrustedDevicesKey)))]
    else []
  }

  function TrustedDevicesPeriodAlerts(oldValue: Record, newValue: Record): (r: seq<Alert>)
    ensures |r| <= 1
    ensures r != [] ==> Code(r[0]) == TrustedDevicesPeriodCode
  {
    if SetAndChanged(oldValue, newValue, TrustedDevicesPeriodKey) then
      [TrustedDevicesPeriodAlert(Coalesce(oldValue, TrustedDevicesPeriodKey, Str("")), Get(newValue, TrustedDevicesPeriodKey))]
    else []
  }

  function PasswordResetShowAlerts(oldValue: Record, newValue: Record): (r: seq<Alert>)
    ensures |r| <= 1
    ensures r != [] ==> Code(r[0]) == PasswordResetShowCode
  {
    if IsSet(newValue, PasswordResetShowKey) && IsSet(oldValue, PasswordResetShowKey)
       && Get(oldValue, PasswordResetShowKey) != Get(newValue, PasswordResetShowKey) then
      [PasswordResetShowAlert(EventType(Get(newValue, PasswordResetShowKey)))]
    else []
  }

  // ---------------------------------------------------------------------------
  // The whole batch

  /** The batch `settings_trigger` dispatches for a change of `option`, or the `TypeError`
      that aborts it before anything is dispatched. */
  function Classify(option: string, oldValue: Record, newValue: Record, registry: Registry): (r: Result<seq<Alert>>)
    ensures option != PolicyOption ==> r == Ok([])
    ensures r.Ok? ==> |r.value| <= 8 + |ProvidersOf(registry)|
  {
    if option != PolicyOption then Ok([])
    else
      match ListAlerts(ListTable, oldValue, newValue)
      case TypeError(m) => TypeError(m)
      case Ok(lists) =>
        Ok(EnforcementAlerts(oldValue, newValue) + lists + RegistryAlerts(registry, oldValue, newValue)
           + TrustedDevicesAlerts(oldValue, newValue) + TrustedDevicesPeriodAlerts(oldValue, newValue)
           + PasswordResetShowAlerts(oldValue, newValue))
  }
}
