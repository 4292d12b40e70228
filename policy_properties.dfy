/**
  What the batch of `settings_trigger` holds: one lemma per rule, the order
  of the batch, the no-change case, the keys the batch depends on and the
  `TypeError` case.
 */
module PolicyProperties {
  import opened PhpValues
  import opened Alerts
  import opened PolicyClassifier

  // ---------------------------------------------------------------------------
  // Lists

  /** The text of a list that can be printed. */
  function PrintedList(v: Value): (r: string)
    requires Printable(v)
    ensures IsEmpty(v) ==> r == NoneProvided
    ensures !IsEmpty(v) ==> r == Join(ListSeparator, ElementStrings(v.items))
  {
    ListText(v).value
  }

  /** Both lists of a rule can be printed. */
  predicate RulePrintable(rule: ListRule, oldValue: Record, newValue: Record) {
    Printable(Get(oldValue, rule.key)) && Printable(Get(newValue, rule.key))
  }

  /** The alert the sensor writes for a changed, printable list. */
  function ListReport(rule: ListRule, oldValue: Record, newValue: Record): Alert
    requires RulePrintable(rule, oldValue, newValue)
  {
    ListAlert(rule.code, rule.caption, PrintedList(Get(oldValue, rule.key)), PrintedList(Get(newValue, rule.key)))
  }

  /** The changed lists are the rules whose list changed. */
  lemma {:induction false} ChangedListsMembers(rules: seq<ListRule>, oldValue: Record, newValue: Record)
    ensures forall rule :: rule in ChangedLists(rules, oldValue, newValue) <==> rule in rules && ListChanged(rule, oldValue, newValue)
    decreases |rules|
  {
    if rules != [] {
      ChangedListsMembers(rules[1..], oldValue, newValue);
      assert rules == [rules[0]] + rules[1..];
    }
  }

  /** The list alerts can be built unless a changed list is neither empty nor an array. */
  lemma {:induction false} ListAlertsOk(rules: seq<ListRule>, oldValue: Record, newValue: Record)
    ensures ListAlerts(rules, oldValue, newValue).Ok? <==>
      forall k :: 0 <= k < |rules| && ListChanged(rules[k], oldValue, newValue) ==> RulePrintable(rules[k], oldValue, newValue)
    decreases |rules|
  {
    if rules != [] {
      ListAlertsOk(rules[1..], oldValue, newValue);
      assert forall k :: 1 <= k < |rules| ==> rules[k] == rules[1..][k - 1];
    }
  }

  /** Lists that did not change give no alerts. */
  lemma {:induction false} ListAlertsUnchanged(rules: seq<ListRule>, oldValue: Record, newValue: Record)
    requires forall k :: 0 <= k < |rules| ==> !ListChanged(rules[k], oldValue, newValue)
    ensures ListAlerts(rules, oldValue, newValue) == Ok([])
    decreases |rules|
  {
    if rules != [] {
      assert !ListChanged(rules[0], oldValue, newValue);
      assert forall k :: 0 <= k < |rules[1..]| ==> rules[1..][k] == rules[k + 1];
      ListAlertsUnchanged(rules[1..], oldValue, newValue);
    }
  }

  /** The list alerts are, in table order, one report per changed list carrying both lists as text. */
  lemma {:induction false} ListAlertsExact(rules: seq<ListRule>, oldValue: Record, newValue: Record)
    requires ListAlerts(rules, oldValue, newValue).Ok?
    ensures var b := ListAlerts(rules, oldValue, newValue).value;
            var c := ChangedLists(rules, oldValue, newValue);
            && |b| == |c|
            && forall k :: 0 <= k < |c| ==>
                 RulePrintable(c[k], oldValue, newValue) && b[k] == ListReport(c[k], oldValue, newValue)
    decreases |rules|
  {
    if rules != [] {
      var rule := rules[0];
      ListAlertsExact(rules[1..], oldValue, newValue);
      var b := ListAlerts(rules, oldValue, newValue).value;
      var c := ChangedLists(rules, oldValue, newValue);
      var tail := ListAlerts(rules[1..], oldValue, newValue).value;
      var ctail := ChangedLists(rules[1..], oldValue, newValue);
      if ListChanged(rule, oldValue, newValue) {
        assert RulePrintable(rule, oldValue, newValue);
        assert b == [ListReport(rule, oldValue, newValue)] + tail;
        assert c == [rule] + ctail;
        ReportsCons(rule, tail, ctail, oldValue, newValue);
      } else {
        assert b == tail;
        assert c == ctail;
      }
    }
  }

  /** Putting the report of a changed list in front of the reports of the lists after it. */
  lemma ReportsCons(rule: ListRule, tail: seq<Alert>, ctail: seq<ListRule>, oldValue: Record, newValue: Record)
    requires RulePrintable(rule, oldValue, newValue)
    requires |tail| == |ctail|
    requires forall k :: 0 <= k < |ctail| ==>
               RulePrintable(ctail[k], oldValue, newValue) && tail[k] == ListReport(ctail[k], oldValue, newValue)
    ensures var b, c := [ListReport(rule, oldValue, newValue)] + tail, [rule] + ctail;
            forall k :: 0 <= k < |c| ==> RulePrintable(c[k], oldValue, newValue) && b[k] == ListReport(c[k], oldValue, newValue)
  {
    var b, c := [ListReport(rule, oldValue, newValue)] + tail, [rule] + ctail;
    forall k | 1 <= k < |c|
      ensures RulePrintable(c[k], oldValue, newValue) && b[k] == ListReport(c[k], oldValue, newValue)
    {
      assert b[k] == tail[k - 1] && c[k] == ctail[k - 1];
    }
  }

  /** Concatenating two batches whose codes lie in `lo..hi`. */
  lemma WithinAppend(a: seq<Alert>, b: seq<Alert>, lo: int, hi: int)
    requires CodesWithin(a, lo, hi) && CodesWithin(b, lo, hi)
    ensures CodesWithin(a + b, lo, hi)
  {
    forall k | 0 <= k < |a + b| ensures lo <= Code((a + b)[k]) <= hi {
      if k < |a| {
        assert (a + b)[k] == a[k];
      } else {
        assert (a + b)[k] == b[k - |a|];
      }
    }
  }

  /** Rules whose codes lie in `lo..hi` give list alerts whose codes lie in `lo..hi`. */
  lemma {:induction false} ListAlertsWithin(rules: seq<ListRule>, oldValue: Record, newValue: Record, lo: int, hi: int)
    requires ListAlerts(rules, oldValue, newValue).Ok?
    requires forall k :: 0 <= k < |rules| ==> lo <= rules[k].code <= hi
    ensures CodesWithin(ListAlerts(rules, oldValue, newValue).value, lo, hi)
    decreases |rules|
  {
    if rules != [] {
      assert forall k :: 0 <= k < |rules[1..]| ==> rules[1..][k] == rules[k + 1];
      ListAlertsWithin(rules[1..], oldValue, newValue, lo, hi);
      var first := ListEntry(rules[0], oldValue, newValue).value;
      var tail := ListAlerts(rules[1..], oldValue, newValue).value;
      assert CodesWithin(first, lo, hi);
      WithinAppend(first, tail, lo, hi);
    }
  }

  /** A table whose codes ascend yields list alerts whose codes ascend. */
  lemma {:induction false} ListAlertsAscending(rules: seq<ListRule>, oldValue: Record, newValue: Record)
    requires ListAlerts(rules, oldValue, newValue).Ok?
    requires forall i, j :: 0 <= i < j < |rules| ==> rules[i].code <= rules[j].code
    ensures CodesAscending(ListAlerts(rules, oldValue, newValue).value)
    decreases |rules|
  {
    if rules != [] {
      var rest := rules[1..];
      var lo, hi := rules[0].code, rules[|rules| - 1].code;
      RestOfTable(rules);
      ListAlertsAscending(rest, oldValue, newValue);
      ListAlertsWithin(rest, oldValue, newValue, lo, hi);
      var first := ListEntry(rules[0], oldValue, newValue).value;
      var tail := ListAlerts(rest, oldValue, newValue).value;
      assert CodesWithin(first, lo, lo) && CodesAscending(first);
      AscendingAppend(first, tail, lo, lo, hi);
    }
  }

  /** The rules after the first of a table whose codes ascend ascend too, between the first and the last code. */
  lemma RestOfTable(rules: seq<ListRule>)
    requires rules != []
    requires forall i, j :: 0 <= i < j < |rules| ==> rules[i].code <= rules[j].code
    ensures var rest, lo, hi := rules[1..], rules[0].code, rules[|rules| - 1].code;
            && (forall i, j :: 0 <= i < j < |rest| ==> rest[i].code <= rest[j].code)
            && (forall k :: 0 <= k < |rest| ==> lo <= rest[k].code <= hi)
  {
    var rest := rules[1..];
    forall i, j | 0 <= i < j < |rest| ensures rest[i].code <= rest[j].code {
      assert rest[i] == rules[i + 1] && rest[j] == rules[j + 1];
    }
    forall k | 0 <= k < |rest| ensures rules[0].code <= rest[k].code <= rules[|rules| - 1].code {
      assert rest[k] == rules[k + 1];
    }
  }

  // ---------------------------------------------------------------------------
  // Providers

  /** The firing providers are the providers of the registry that fire. */
  lemma {:induction false} FiringProvidersMembers(ps: seq<ProviderEntry>, oldValue: Record, newValue: Record)
    ensures forall e :: e in FiringProviders(ps, oldValue, newValue) <==> e in ps && ProviderFires(e, oldValue, newValue)
    decreases |ps|
  {
    if ps != [] {
      FiringProvidersMembers(ps[1..], oldValue, newValue);
      assert ps == [ps[0]] + ps[1..];
    }
  }

  /** The provider alerts are, in registry order, one toggle alert per provider that fires. */
  lemma {:induction false} ProviderAlertsExact(ps: seq<ProviderEntry>, names: map<string, string>, oldValue: Record, newValue: Record)
    ensures var r := ProviderAlerts(ps, names, oldValue, newValue);
            var f := FiringProviders(ps, oldValue, newValue);
            && |r| == |f|
            && forall k :: 0 <= k < |f| ==> r[k] == ToggleAlertOf(f[k], names, newValue)
    decreases |ps|
  {
    if ps != [] {
      ProviderAlertsExact(ps[1..], names, oldValue, newValue);
      var r := ProviderAlerts(ps, names, oldValue, newValue);
      var f := FiringProviders(ps, oldValue, newValue);
      var rt := ProviderAlerts(ps[1..], names, oldValue, newValue);
      var ft := FiringProviders(ps[1..], oldValue, newValue);
      if ProviderFires(ps[0], oldValue, newValue) {
        assert r == [ToggleAlertOf(ps[0], names, newValue)] + rt;
        assert f == [ps[0]] + ft;
        TogglesCons(ps[0], rt, ft, names, newValue);
      } else {
        assert r == rt && f == ft;
      }
    }
  }

  /** Putting the toggle alert of a firing provider in front of the alerts of the providers after it. */
  lemma TogglesCons(e: ProviderEntry, rt: seq<Alert>, ft: seq<ProviderEntry>, names: map<string, string>, newValue: Record)
    requires |rt| == |ft|
    requires forall k :: 0 <= k < |ft| ==> rt[k] == ToggleAlertOf(ft[k], names, newValue)
    ensures var r, f := [ToggleAlertOf(e, names, newValue)] + rt, [e] + ft;
            forall k :: 0 <= k < |f| ==> r[k] == ToggleAlertOf(f[k], names, newValue)
  {
    var r, f := [ToggleAlertOf(e, names, newValue)] + rt, [e] + ft;
    forall k | 1 <= k < |f| ensures r[k] == ToggleAlertOf(f[k], names, newValue) {
      assert r[k] == rt[k - 1] && f[k] == ft[k - 1];
    }
  }

  /** A provider's toggle alert is in the batch of its registry iff it fires; every alert there is one
      of these; the batch is empty iff no provider fires. */
  lemma ProviderAlertsFire(ps: seq<ProviderEntry>, names: map<string, string>, oldValue: Record, newValue: Record)
    ensures forall e :: e in ps && ProviderFires(e, oldValue, newValue) ==>
              ToggleAlertOf(e, names, newValue) in ProviderAlerts(ps, names, oldValue, newValue)
    ensures forall a :: a in ProviderAlerts(ps, names, oldValue, newValue) ==>
              exists e :: e in ps && ProviderFires(e, oldValue, newValue) && a == ToggleAlertOf(e, names, newValue)
    ensures ProviderAlerts(ps, names, oldValue, newValue) == [] <==>
              forall e :: e in ps ==> !ProviderFires(e, oldValue, newValue)
  {
    var r := ProviderAlerts(ps, names, oldValue, newValue);
    var f := FiringProviders(ps, oldValue, newValue);
    ProviderAlertsExact(ps, names, oldValue, newValue);
    FiringProvidersMembers(ps, oldValue, newValue);
    forall e | e in ps && ProviderFires(e, oldValue, newValue)
      ensures ToggleAlertOf(e, names, newValue) in r
    {
      var k :| 0 <= k < |f| && f[k] == e;
      assert r[k] == ToggleAlertOf(e, names, newValue);
    }
    forall a | a in r
      ensures exists e :: e in ps && ProviderFires(e, oldValue, newValue) && a == ToggleAlertOf(e, names, newValue)
    {
      var k :| 0 <= k < |r| && r[k] == a;
      assert f[k] in f;
    }
    if f != [] {
      assert f[0] in f;
    }
  }

  // ---------------------------------------------------------------------------
  // Selecting one code out of the batch

  /** Selecting from the batch selects from each rule's alerts in turn. */
  lemma ClassifySelect(oldValue: Record, newValue: Record, registry: Registry, code: int)
    requires Classify(PolicyOption, oldValue, newValue, registry).Ok?
    ensures ListAlerts(ListTable, oldValue, newValue).Ok?
    ensures Select(Classify(PolicyOption, oldValue, newValue, registry).value, code)
         == Select(EnforcementAlerts(oldValue, newValue), code)
          + Select(ListAlerts(ListTable, oldValue, newValue).value, code)
          + Select(RegistryAlerts(registry, oldValue, newValue), code)
          + Select(TrustedDevicesAlerts(oldValue, newValue), code)
          + Select(TrustedDevicesPeriodAlerts(oldValue, newValue), code)
          + Select(PasswordResetShowAlerts(oldValue, newValue), code)
  {
    var e := EnforcementAlerts(oldValue, newValue);
    var l := ListAlerts(ListTable, oldValue, newValue).value;
    var p := RegistryAlerts(registry, oldValue, newValue);
    var t := TrustedDevicesAlerts(oldValue, newValue);
    var d := TrustedDevicesPeriodAlerts(oldValue, newValue);
    var s := PasswordResetShowAlerts(oldValue, newValue);
    assert Classify(PolicyOption, oldValue, newValue, registry).value == e + l + p + t + d + s;
    SelectSixParts(e, l, p, t, d, s, code);
  }

  /** Selecting from six concatenated parts. */
  lemma SelectSixParts(e: seq<Alert>, l: seq<Alert>, p: seq<Alert>, t: seq<Alert>, d: seq<Alert>, s: seq<Alert>, code: int)
    ensures Select(e + l + p + t + d + s, code)
         == Select(e, code) + Select(l, code) + Select(p, code) + Select(t, code) + Select(d, code) + Select(s, code)
  {
    SelectAppend(e, l, code);
    SelectAppend(e + l, p, code);
    SelectAppend(e + l + p, t, code);
    SelectAppend(e + l + p + t, d, code);
    SelectAppend(e + l + p + t + d, s, code);
  }

  /** Six parts of which all but one are empty concatenate to that one. */
  lemma OnePart(x: seq<Alert>, e: seq<Alert>, l: seq<Alert>, p: seq<Alert>, t: seq<Alert>, d: seq<Alert>, s: seq<Alert>)
    requires x == e + l + p + t + d + s
    ensures l == [] && p == [] && t == [] && d == [] && s == [] ==> x == e
    ensures e == [] && p == [] && t == [] && d == [] && s == [] ==> x == l
    ensures e == [] && l == [] && t == [] && d == [] && s == [] ==> x == p
    ensures e == [] && l == [] && p == [] && d == [] && s == [] ==> x == t
    ensures e == [] && l == [] && p == [] && t == [] && s == [] ==> x == d
    ensures e == [] && l == [] && p == [] && t == [] && d == [] ==> x == s
  {
  }

  /** When all rules but one emit nothing of a code, the batch's alerts of that code are that rule's. */
  lemma SelectParts(oldValue: Record, newValue: Record, registry: Registry, code: int)
    requires Classify(PolicyOption, oldValue, newValue, registry).Ok?
    ensures ListAlerts(ListTable, oldValue, newValue).Ok?
    ensures var x := Select(Classify(PolicyOption, oldValue, newValue, registry).value, code);
            var e := Select(EnforcementAlerts(oldValue, newValue), code);
            var l := Select(ListAlerts(ListTable, oldValue, newValue).value, code);
            var p := Select(RegistryAlerts(registry, oldValue, newValue), code);
            var t := Select(TrustedDevicesAlerts(oldValue, newValue), code);
            var d := Select(TrustedDevicesPeriodAlerts(oldValue, newValue), code);
            var s := Select(PasswordResetShowAlerts(oldValue, newValue), code);
            && (l == [] && p == [] && t == [] && d == [] && s == [] ==> x == e)
            && (e == [] && p == [] && t == [] && d == [] && s == [] ==> x == l)
            && (e == [] && l == [] && t == [] && d == [] && s == [] ==> x == p)
            && (e == [] && l == [] && p == [] && d == [] && s == [] ==> x == t)
            && (e == [] && l == [] && p == [] && t == [] && s == [] ==> x == d)
            && (e == [] && l == [] && p == [] && t == [] && d == [] ==> x == s)
  {
    ClassifySelect(oldValue, newValue, registry, code);
    OnePart(Select(Classify(PolicyOption, oldValue, newValue, registry).value, code),
            Select(EnforcementAlerts(oldValue, newValue), code),
            Select(ListAlerts(ListTable, oldValue, newValue).value, code),
            Select(RegistryAlerts(registry, oldValue, newValue), code),
            Select(TrustedDevicesAlerts(oldValue, newValue), code),
            Select(TrustedDevicesPeriodAlerts(oldValue, newValue), code),
            Select(PasswordResetShowAlerts(oldValue, newValue), code));
  }

  /** Every alert of the list rule has code 7802 or 7803. */
  lemma ListCodes(oldValue: Record, newValue: Record)
    requires ListAlerts(ListTable, oldValue, newValue).Ok?
    ensures CodesWithin(ListAlerts(ListTable, oldValue, newValue).value, EnforcedListCode, ExcludedListCode)
  {
    ListAlertsWithin(ListTable, oldValue, newValue, EnforcedListCode, ExcludedListCode);
  }

  /** The list rule emits no code other than 7802 and 7803. */
  lemma ListSelect(oldValue: Record, newValue: Record, code: int)
    requires ListAlerts(ListTable, oldValue, newValue).Ok?
    requires code != EnforcedListCode && code != ExcludedListCode
    ensures Select(ListAlerts(ListTable, oldValue, newValue).value, code) == []
  {
    ListCodes(oldValue, newValue);
    SelectAbsent(ListAlerts(ListTable, oldValue, newValue).value, code);
  }

  /** Every alert of the provider rule has code 7804. */
  lemma RegistryCodes(registry: Registry, oldValue: Record, newValue: Record)
    ensures CodesWithin(RegistryAlerts(registry, oldValue, newValue), ProviderToggleCode, ProviderToggleCode)
  {
  }

  /** The provider rule emits code 7804 only. */
  lemma RegistrySelect(registry: Registry, oldValue: Record, newValue: Record, code: int)
    ensures Select(RegistryAlerts(registry, oldValue, newValue), code)
         == if code == ProviderToggleCode then RegistryAlerts(registry, oldValue, newValue) else []
  {
    RegistryCodes(registry, oldValue, newValue);
    SelectUniform(RegistryAlerts(registry, oldValue, newValue), ProviderToggleCode, code);
  }

  // ---------------------------------------------------------------------------
  // The batch, rule by rule

  /** Rule 1: at most one enforcement alert, only when the policy changed; 7801 with the raw value
      iff the new policy is "do-not-enforce", otherwise 7800 labelled "Enforce on all users" iff the
      new policy is "all-users". */
  lemma ClassifyEnforcement(oldValue: Record, newValue: Record, registry: Registry)
    requires Classify(PolicyOption, oldValue, newValue, registry).Ok?
    ensures var b := Classify(PolicyOption, oldValue, newValue, registry).value;
            var policy := Get(newValue, EnforcementPolicyKey);
            var changed := policy != Get(oldValue, EnforcementPolicyKey);
            && Select(b, PolicyNotEnforcedCode)
               == (if changed && policy == Str(DoNotEnforce) then [PolicyAlert(PolicyNotEnforcedCode, policy)] else [])
            && Select(b, PolicyEnforcedCode)
               == (if changed && policy != Str(DoNotEnforce)
                   then [PolicyAlert(PolicyEnforcedCode, Str(if policy == Str(AllUsers) then AllUsersLabel else SpecificUsersLabel))]
                   else [])
  {
    var b := Classify(PolicyOption, oldValue, newValue, registry).value;
    var e := EnforcementAlerts(oldValue, newValue);
    assert Select(b, PolicyNotEnforcedCode) == Select(e, PolicyNotEnforcedCode) by {
      EnforcementOnly(oldValue, newValue, registry, PolicyNotEnforcedCode);
    }
    assert Select(b, PolicyEnforcedCode) == Select(e, PolicyEnforcedCode) by {
      EnforcementOnly(oldValue, newValue, registry, PolicyEnforcedCode);
    }
    SelectShort(e, PolicyNotEnforcedCode);
    SelectShort(e, PolicyEnforcedCode);
  }

  /** The enforcement rule is the only one emitting 7800 and 7801. */
  lemma EnforcementOnly(oldValue: Record, newValue: Record, registry: Registry, code: int)
    requires Classify(PolicyOption, oldValue, newValue, registry).Ok?
    requires code == PolicyEnforcedCode || code == PolicyNotEnforcedCode
    ensures Select(Classify(PolicyOption, oldValue, newValue, registry).value, code)
         == Select(EnforcementAlerts(oldValue, newValue), code)
  {
    ListSelect(oldValue, newValue, code);
    RegistrySelect(registry, oldValue, newValue, code);
    TogglesSelect(oldValue, newValue, code);
    SelectParts(oldValue, newValue, registry, code);
  }

  /** Rules 4-6 emit 7805, 7806 and 7807 respectively, and nothing else. */
  lemma TogglesSelect(oldValue: Record, newValue: Record, code: int)
    ensures Select(TrustedDevicesAlerts(oldValue, newValue), code)
         == if code == TrustedDevicesCode then TrustedDevicesAlerts(oldValue, newValue) else []
    ensures Select(TrustedDevicesPeriodAlerts(oldValue, newValue), code)
         == if code == TrustedDevicesPeriodCode then TrustedDevicesPeriodAlerts(oldValue, newValue) else []
    ensures Select(PasswordResetShowAlerts(oldValue, newValue), code)
         == if code == PasswordResetShowCode then PasswordResetShowAlerts(oldValue, newValue) else []
  {
    SelectShort(TrustedDevicesAlerts(oldValue, newValue), code);
    SelectShort(TrustedDevicesPeriodAlerts(oldValue, newValue), code);
    SelectShort(PasswordResetShowAlerts(oldValue, newValue), code);
  }

  /** Rule 2: the 7802 and the 7803 alerts of the batch are those of the list alerts. */
  lemma ClassifyListSelect(oldValue: Record, newValue: Record, registry: Registry, code: int)
    requires Classify(PolicyOption, oldValue, newValue, registry).Ok?
    requires code == EnforcedListCode || code == ExcludedListCode
    ensures ListAlerts(ListTable, oldValue, newValue).Ok?
    ensures Select(Classify(PolicyOption, oldValue, newValue, registry).value, code)
         == Select(ListAlerts(ListTable, oldValue, newValue).value, code)
  {
    RegistrySelect(registry, oldValue, newValue, code);
    OtherRulesSelect(oldValue, newValue, code);
    SelectParts(oldValue, newValue, registry, code);
  }

  /** The rules emitting at most one alert emit none with a code of the list or the provider rule. */
  lemma OtherRulesSelect(oldValue: Record, newValue: Record, code: int)
    requires EnforcedListCode <= code <= ProviderToggleCode
    ensures Select(EnforcementAlerts(oldValue, newValue), code) == []
    ensures Select(TrustedDevicesAlerts(oldValue, newValue), code) == []
    ensures Select(TrustedDevicesPeriodAlerts(oldValue, newValue), code) == []
    ensures Select(PasswordResetShowAlerts(oldValue, newValue), code) == []
  {
    SelectShort(EnforcementAlerts(oldValue, newValue), code);
    TogglesSelect(oldValue, newValue, code);
  }

  /** The list alerts of the batch are the alerts of the list rule. */
  lemma ClassifyListMembers(oldValue: Record, newValue: Record, registry: Registry)
    requires Classify(PolicyOption, oldValue, newValue, registry).Ok?
    ensures ListAlerts(ListTable, oldValue, newValue).Ok?
    ensures forall a :: a in Classify(PolicyOption, oldValue, newValue, registry).value && a.ListAlert? <==>
              a in ListAlerts(ListTable, oldValue, newValue).value
  {
    var b := Classify(PolicyOption, oldValue, newValue, registry).value;
    var l := ListAlerts(ListTable, oldValue, newValue).value;
    var p := RegistryAlerts(registry, oldValue, newValue);
    ListAlertsExact(ListTable, oldValue, newValue);
    forall a | a in l ensures a.ListAlert? {
      var k :| 0 <= k < |l| && l[k] == a;
    }
    forall a | a in p ensures a.ProviderToggleAlert? {
      var k :| 0 <= k < |p| && p[k] == a;
    }
  }

  /** Rule 2, list by list: the batch reports list `i` of the table iff that list changed, and then
      with the list's code and caption and both lists as text. */
  lemma ClassifyListFires(oldValue: Record, newValue: Record, registry: Registry, i: nat)
    requires Classify(PolicyOption, oldValue, newValue, registry).Ok?
    requires i < |ListTable|
    ensures var b := Classify(PolicyOption, oldValue, newValue, registry).value;
            var rule := ListTable[i];
            && (ListChanged(rule, oldValue, newValue) <==>
                  exists a :: a in b && a.ListAlert? && a.changedList == rule.caption)
            && (ListChanged(rule, oldValue, newValue) ==>
                  RulePrintable(rule, oldValue, newValue) && ListReport(rule, oldValue, newValue) in b)
  {
    ClassifyListMembers(oldValue, newValue, registry);
    var l := ListAlerts(ListTable, oldValue, newValue).value;
    var rule := ListTable[i];
    if ListChanged(rule, oldValue, newValue) {
      ChangedListReported(ListTable, oldValue, newValue, rule);
    }
    forall a | a in l && a.ListAlert? && a.changedList == rule.caption
      ensures ListChanged(rule, oldValue, newValue)
    {
      ReportedListChanged(oldValue, newValue, a, i);
    }
  }

  /** A changed list of the table is reported. */
  lemma ChangedListReported(rules: seq<ListRule>, oldValue: Record, newValue: Record, rule: ListRule)
    requires ListAlerts(rules, oldValue, newValue).Ok?
    requires rule in rules && ListChanged(rule, oldValue, newValue)
    ensures RulePrintable(rule, oldValue, newValue)
    ensures ListReport(rule, oldValue, newValue) in ListAlerts(rules, oldValue, newValue).value
  {
    var l := ListAlerts(rules, oldValue, newValue).value;
    var c := ChangedLists(rules, oldValue, newValue);
    ListAlertsExact(rules, oldValue, newValue);
    ChangedListsMembers(rules, oldValue, newValue);
    assert rule in c;
    var k :| 0 <= k < |c| && c[k] == rule;
    assert l[k] in l;
  }

  /** A list alert names the caption of a changed list of the table. */
  lemma ReportedListChanged(oldValue: Record, newValue: Record, a: Alert, i: nat)
    requires ListAlerts(ListTable, oldValue, newValue).Ok?
    requires a in ListAlerts(ListTable, oldValue, newValue).value
    requires i < |ListTable| && a.ListAlert? && a.changedList == ListTable[i].caption
    ensures ListChanged(ListTable[i], oldValue, newValue)
  {
    var l := ListAlerts(ListTable, oldValue, newValue).value;
    var c := ChangedLists(ListTable, oldValue, newValue);
    ListAlertsExact(ListTable, oldValue, newValue);
    ChangedListsMembers(ListTable, oldValue, newValue);
    var k :| 0 <= k < |l| && l[k] == a;
    var rule := c[k];
    assert rule in ListTable && ListChanged(rule, oldValue, newValue);
    assert rule.caption == ListTable[i].caption;
    CaptionsDistinct(rule, ListTable[i]);
  }

  /** No two lists of the table share a caption. */
  lemma CaptionsDistinct(r1: ListRule, r2: ListRule)
    requires r1 in ListTable && r2 in ListTable && r1.caption == r2.caption
    ensures r1 == r2
  {
  }

  /** Rule 3: the 7804 alerts are exactly the provider alerts, none when the settings controller is absent. */
  lemma ClassifyProviders(oldValue: Record, newValue: Record, registry: Registry)
    requires Classify(PolicyOption, oldValue, newValue, registry).Ok?
    ensures var b := Classify(PolicyOption, oldValue, newValue, registry).value;
            && Select(b, ProviderToggleCode) == RegistryAlerts(registry, oldValue, newValue)
            && (registry.NoRegistry? ==> Select(b, ProviderToggleCode) == [])
  {
    ListSelect(oldValue, newValue, ProviderToggleCode);
    RegistrySelect(registry, oldValue, newValue, ProviderToggleCode);
    OtherRulesSelect(oldValue, newValue, ProviderToggleCode);
    SelectParts(oldValue, newValue, registry, ProviderToggleCode);
  }

  /** Rules 4-6: 7805 and 7806 need the new key set and the old one unset or different, 7806's old value
      defaulting to ""; 7807 needs both keys set and different, so it never reports a first setting. */
  lemma ClassifyToggles(oldValue: Record, newValue: Record, registry: Registry)
    requires Classify(PolicyOption, oldValue, newValue, registry).Ok?
    ensures var b := Classify(PolicyOption, oldValue, newValue, registry).value;
            && Select(b, TrustedDevicesCode)
               == (if IsSet(newValue, TrustedDevicesKey)
                      && (!IsSet(oldValue, TrustedDevicesKey) || Get(oldValue, TrustedDevicesKey) != Get(newValue, TrustedDevicesKey))
                   then [TrustedDevicesAlert(EventType(Get(newValue, TrustedDevicesKey)))]
                   else [])
            && Select(b, TrustedDevicesPeriodCode)
               == (if IsSet(newValue, TrustedDevicesPeriodKey)
                      && (!IsSet(oldValue, TrustedDevicesPeriodKey) || Get(oldValue, TrustedDevicesPeriodKey) != Get(newValue, TrustedDevicesPeriodKey))
                   then [TrustedDevicesPeriodAlert(if IsSet(oldValue, TrustedDevicesPeriodKey) then Get(oldValue, TrustedDevicesPeriodKey) else Str(""),
                                                   Get(newValue, TrustedDevicesPeriodKey))]
                   else [])
            && Select(b, PasswordResetShowCode)
               == (if IsSet(newValue, PasswordResetShowKey) && IsSet(oldValue, PasswordResetShowKey)
                      && Get(oldValue, PasswordResetShowKey) != Get(newValue, PasswordResetShowKey)
                   then [PasswordResetShowAlert(EventType(Get(newValue, PasswordResetShowKey)))]
                   else [])
            && (!IsSet(oldValue, PasswordResetShowKey) ==> Select(b, PasswordResetShowCode) == [])
  {
    var b := Classify(PolicyOption, oldValue, newValue, registry).value;
    assert Select(b, TrustedDevicesCode) == TrustedDevicesAlerts(oldValue, newValue) by {
      ToggleOnly(oldValue, newValue, registry, TrustedDevicesCode);
    }
    assert Select(b, TrustedDevicesPeriodCode) == TrustedDevicesPeriodAlerts(oldValue, newValue) by {
      ToggleOnly(oldValue, newValue, registry, TrustedDevicesPeriodCode);
    }
    assert Select(b, PasswordResetShowCode) == PasswordResetShowAlerts(oldValue, newValue) by {
      ToggleOnly(oldValue, newValue, registry, PasswordResetShowCode);
    }
  }

  /** Each of the rules 4-6 is the only one emitting its code. */
  lemma ToggleOnly(oldValue: Record, newValue: Record, registry: Registry, code: int)
    requires Classify(PolicyOption, oldValue, newValue, registry).Ok?
    requires TrustedDevicesCode <= code <= PasswordResetShowCode
    ensures Select(Classify(PolicyOption, oldValue, newValue, registry).value, code)
         == if code == TrustedDevicesCode then TrustedDevicesAlerts(oldValue, newValue)
            else if code == TrustedDevicesPeriodCode then TrustedDevicesPeriodAlerts(oldValue, newValue)
            else PasswordResetShowAlerts(oldValue, newValue)
  {
    ListSelect(oldValue, newValue, code);
    RegistrySelect(registry, oldValue, newValue, code);
    SelectShort(EnforcementAlerts(oldValue, newValue), code);
    TogglesSelect(oldValue, newValue, code);
    SelectParts(oldValue, newValue, registry, code);
  }

  // ---------------------------------------------------------------------------
  // The batch as a whole

  /** The batch is dispatched in rule order: enforcement, lists, providers, 7805, 7806, 7807,
      so its codes never decrease. */
  lemma ClassifyAscending(option: string, oldValue: Record, newValue: Record, registry: Registry)
    requires Classify(option, oldValue, newValue, registry).Ok?
    ensures CodesAscending(Classify(option, oldValue, newValue, registry).value)
  {
    if option == PolicyOption {
      var e := EnforcementAlerts(oldValue, newValue);
      var l := ListAlerts(ListTable, oldValue, newValue).value;
      var p := RegistryAlerts(registry, oldValue, newValue);
      var t := TrustedDevicesAlerts(oldValue, newValue);
      var d := TrustedDevicesPeriodAlerts(oldValue, newValue);
      var s := PasswordResetShowAlerts(oldValue, newValue);
      ListAlertsAscending(ListTable, oldValue, newValue);
      ListCodes(oldValue, newValue);
      RegistryCodes(registry, oldValue, newValue);
      SingleRuleCodes(oldValue, newValue);
      BatchAscending(e, l, p, t, d, s);
    }
  }

  /** Rules 1 and 4-6 emit at most one alert each, with the codes of their rule. */
  lemma SingleRuleCodes(oldValue: Record, newValue: Record)
    ensures CodesAscending(EnforcementAlerts(oldValue, newValue))
    ensures CodesWithin(EnforcementAlerts(oldValue, newValue), PolicyEnforcedCode, PolicyNotEnforcedCode)
    ensures CodesWithin(TrustedDevicesAlerts(oldValue, newValue), TrustedDevicesCode, TrustedDevicesCode)
    ensures CodesWithin(TrustedDevicesPeriodAlerts(oldValue, newValue), TrustedDevicesPeriodCode, TrustedDevicesPeriodCode)
    ensures CodesWithin(PasswordResetShowAlerts(oldValue, newValue), PasswordResetShowCode, PasswordResetShowCode)
  {
  }

  /** Six parts, each ascending within the band of codes of its rule, concatenate to an ascending batch. */
  lemma BatchAscending(e: seq<Alert>, l: seq<Alert>, p: seq<Alert>, t: seq<Alert>, d: seq<Alert>, s: seq<Alert>)
    requires CodesAscending(e) && CodesWithin(e, PolicyEnforcedCode, PolicyNotEnforcedCode)
    requires CodesAscending(l) && CodesWithin(l, EnforcedListCode, ExcludedListCode)
    requires CodesWithin(p, ProviderToggleCode, ProviderToggleCode)
    requires CodesWithin(t, TrustedDevicesCode, TrustedDevicesCode)
    requires CodesWithin(d, TrustedDevicesPeriodCode, TrustedDevicesPeriodCode)
    requires CodesWithin(s, PasswordResetShowCode, PasswordResetShowCode)
    ensures CodesAscending(e + l + p + t + d + s)
  {
    var lo := PolicyEnforcedCode;
    AscendingAppend(e, l, lo, PolicyNotEnforcedCode, ExcludedListCode);
    AscendingAppend(e + l, p, lo, ExcludedListCode, ProviderToggleCode);
    AscendingAppend(e + l + p, t, lo, ProviderToggleCode, TrustedDevicesCode);
    AscendingAppend(e + l + p + t, d, lo, TrustedDevicesCode, TrustedDevicesPeriodCode);
    AscendingAppend(e + l + p + t + d, s, lo, TrustedDevicesPeriodCode, PasswordResetShowCode);
  }

  /** The batch aborts with a `TypeError` iff the option is the policy and a changed list is
      neither empty nor an array. */
  lemma ClassifyTypeError(option: string, oldValue: Record, newValue: Record, registry: Registry)
    ensures Classify(option, oldValue, newValue, registry).TypeError? <==>
      option == PolicyOption &&
      exists k :: 0 <= k < |ListTable| && ListChanged(ListTable[k], oldValue, newValue) &&
        !RulePrintable(ListTable[k], oldValue, newValue)
  {
    ListAlertsOk(ListTable, oldValue, newValue);
  }

  /** A provider fires on identical snapshots iff its field resolves and is unset. */
  lemma ProviderFiresIdentical(e: ProviderEntry, s: Record)
    ensures ProviderFires(e, s, s) <==> PolicyField(e) != "" && !IsSet(s, PolicyField(e))
  {
  }

  /** Identical snapshots give an empty batch exactly when every resolved provider field is set:
      a field absent from both snapshots still yields a 7804 'disabled' alert. */
  lemma ClassifyIdentical(s: Record, registry: Registry)
    ensures Classify(PolicyOption, s, s, registry).Ok?
    ensures var b := Classify(PolicyOption, s, s, registry).value;
            && (b == [] <==> forall e :: e in ProvidersOf(registry) && PolicyField(e) != "" ==> IsSet(s, PolicyField(e)))
            && forall e :: registry.Registry? && e in registry.providers && PolicyField(e) != "" && !IsSet(s, PolicyField(e)) ==>
                 ToggleAlertOf(e, registry.names, s) in b
                 && ToggleAlertOf(e, registry.names, s).eventType == Str("disabled")
  {
    ListAlertsUnchanged(ListTable, s, s);
    var p := RegistryAlerts(registry, s, s);
    assert Classify(PolicyOption, s, s, registry) == Ok(p) by {
      assert [] + [] + p + [] + [] + [] == p;
    }
    forall e ensures ProviderFires(e, s, s) <==> PolicyField(e) != "" && !IsSet(s, PolicyField(e)) {
      ProviderFiresIdentical(e, s);
    }
    if registry.Registry? {
      ProviderAlertsFire(registry.providers, registry.names, s, s);
    }
  }

  // ---------------------------------------------------------------------------
  // Which keys the batch reads

  /** The keys read by rules 1 and 4-6. */
  const SingleRuleKeys: set<string> := {EnforcementPolicyKey, TrustedDevicesKey, TrustedDevicesPeriodKey, PasswordResetShowKey}

  /** The keys of the option value that some rule reads. */
  function WatchedKeys(registry: Registry): set<string> {
    SingleRuleKeys
    + (set rule | rule in ListTable :: rule.key)
    + (set e | e in ProvidersOf(registry) && PolicyField(e) != "" :: PolicyField(e))
  }

  predicate AgreeOn(a: Record, b: Record, keys: set<string>) {
    forall k :: k in keys ==> Get(a, k) == Get(b, k)
  }

  lemma {:induction false} ListAlertsAgree(rules: seq<ListRule>, o1: Record, n1: Record, o2: Record, n2: Record)
    requires forall rule :: rule in rules ==> Get(o1, rule.key) == Get(o2, rule.key) && Get(n1, rule.key) == Get(n2, rule.key)
    ensures ListAlerts(rules, o1, n1) == ListAlerts(rules, o2, n2)
    decreases |rules|
  {
    if rules != [] {
      assert ListEntry(rules[0], o1, n1) == ListEntry(rules[0], o2, n2) by {
        assert rules[0] in rules;
      }
      forall rule | rule in rules[1..]
        ensures Get(o1, rule.key) == Get(o2, rule.key) && Get(n1, rule.key) == Get(n2, rule.key)
      {
        assert rule in rules;
      }
      ListAlertsAgree(rules[1..], o1, n1, o2, n2);
    }
  }

  lemma {:induction false} ProviderAlertsAgree(ps: seq<ProviderEntry>, names: map<string, string>, o1: Record, n1: Record, o2: Record, n2: Record)
    requires forall e :: e in ps && PolicyField(e) != "" ==>
               Get(o1, PolicyField(e)) == Get(o2, PolicyField(e)) && Get(n1, PolicyField(e)) == Get(n2, PolicyField(e))
    ensures ProviderAlerts(ps, names, o1, n1) == ProviderAlerts(ps, names, o2, n2)
    decreases |ps|
  {
    if ps != [] {
      var e := ps[0];
      assert ProviderFires(e, o1, n1) == ProviderFires(e, o2, n2)
          && (ProviderFires(e, o1, n1) ==> ToggleAlertOf(e, names, n1) == ToggleAlertOf(e, names, n2)) by {
        assert e in ps;
      }
      forall e' | e' in ps[1..] && PolicyField(e') != ""
        ensures Get(o1, PolicyField(e')) == Get(o2, PolicyField(e')) && Get(n1, PolicyField(e')) == Get(n2, PolicyField(e'))
      {
        assert e' in ps;
      }
      ProviderAlertsAgree(ps[1..], names, o1, n1, o2, n2);
    }
  }

  /** The list rule reads only the keys of the table. */
  lemma ListsReadWatched(registry: Registry, o1: Record, n1: Record, o2: Record, n2: Record)
    requires AgreeOn(o1, o2, WatchedKeys(registry)) && AgreeOn(n1, n2, WatchedKeys(registry))
    ensures ListAlerts(ListTable, o1, n1) == ListAlerts(ListTable, o2, n2)
  {
    forall rule | rule in ListTable
      ensures Get(o1, rule.key) == Get(o2, rule.key) && Get(n1, rule.key) == Get(n2, rule.key)
    {
      assert rule.key in WatchedKeys(registry);
    }
    ListAlertsAgree(ListTable, o1, n1, o2, n2);
  }

  /** The provider rule reads only the resolved provider fields. */
  lemma RegistryReadsWatched(registry: Registry, o1: Record, n1: Record, o2: Record, n2: Record)
    requires AgreeOn(o1, o2, WatchedKeys(registry)) && AgreeOn(n1, n2, WatchedKeys(registry))
    ensures RegistryAlerts(registry, o1, n1) == RegistryAlerts(registry, o2, n2)
  {
    if registry.Registry? {
      forall e | e in registry.providers && PolicyField(e) != ""
        ensures Get(o1, PolicyField(e)) == Get(o2, PolicyField(e)) && Get(n1, PolicyField(e)) == Get(n2, PolicyField(e))
      {
        assert PolicyField(e) in WatchedKeys(registry);
      }
      ProviderAlertsAgree(registry.providers, registry.names, o1, n1, o2, n2);
    }
  }

  /** Rules 1 and 4-6 read only their own keys. */
  lemma SingleRulesReadWatched(o1: Record, n1: Record, o2: Record, n2: Record)
    requires AgreeOn(o1, o2, SingleRuleKeys) && AgreeOn(n1, n2, SingleRuleKeys)
    ensures EnforcementAlerts(o1, n1) == EnforcementAlerts(o2, n2)
    ensures TrustedDevicesAlerts(o1, n1) == TrustedDevicesAlerts(o2, n2)
    ensures TrustedDevicesPeriodAlerts(o1, n1) == TrustedDevicesPeriodAlerts(o2, n2)
    ensures PasswordResetShowAlerts(o1, n1) == PasswordResetShowAlerts(o2, n2)
  {
    assert EnforcementPolicyKey in SingleRuleKeys && TrustedDevicesKey in SingleRuleKeys;
    assert TrustedDevicesPeriodKey in SingleRuleKeys && PasswordResetShowKey in SingleRuleKeys;
  }

  /** The batch depends only on the watched keys of the two snapshots. */
  lemma ClassifyReadsWatched(option: string, o1: Record, n1: Record, o2: Record, n2: Record, registry: Registry)
    requires AgreeOn(o1, o2, WatchedKeys(registry)) && AgreeOn(n1, n2, WatchedKeys(registry))
    ensures Classify(option, o1, n1, registry) == Classify(option, o2, n2, registry)
  {
    ListsReadWatched(registry, o1, n1, o2, n2);
    RegistryReadsWatched(registry, o1, n1, o2, n2);
    SingleRulesReadWatched(o1, n1, o2, n2);
  }

  /** A change confined to keys no rule reads gives the batch of an unchanged option: empty, unless a
      resolved provider field is unset. */
  lemma ClassifyUnrelatedChange(oldValue: Record, newValue: Record, registry: Registry)
    requires AgreeOn(oldValue, newValue, WatchedKeys(registry))
    ensures Classify(PolicyOption, oldValue, newValue, registry).Ok?
    ensures Classify(PolicyOption, oldValue, newValue, registry).value == [] <==>
              forall e :: e in ProvidersOf(registry) && PolicyField(e) != "" ==> IsSet(oldValue, PolicyField(e))
  {
    ClassifyReadsWatched(PolicyOption, oldValue, newValue, oldValue, oldValue, registry);
    ClassifyIdentical(oldValue, registry);
  }
}
