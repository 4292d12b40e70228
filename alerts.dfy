/**
  Audit alerts of the 2FA sensor, codes 7800-7815.

  An `Alert` is one kind of alert with the values it reports; `ToEvent` renders
  it as the pair `Alert_Manager::trigger_event` receives, the event code and
  the array of named variables. `Select` and the order predicates are views of
  a batch of alerts used to state what a batch holds.
 */
module Alerts {
  import opened PhpValues

  datatype Alert =
      /** 7800 (enforced) or 7801 (not enforced): `new_policy` */
    | PolicyAlert(code: int, newPolicy: Value)
      /** 7802 (enforced list) or 7803 (excluded list): `changed_list`, `old_list`, `new_list` */
    | ListAlert(code: int, changedList: string, oldList: string, newList: string)
      /** 7804: `method`, `EventType` */
    | ProviderToggleAlert(methodName: Value, eventType: Value)
      /** 7805: `EventType` */
    | TrustedDevicesAlert(eventType: Value)
      /** 7806: `old_value`, `new_value` */
    | TrustedDevicesPeriodAlert(oldPeriod: Value, newPeriod: Value)
      /** 7807: `EventType` */
    | PasswordResetShowAlert(eventType: Value)
      /** 7808: `method`, `EditUserLink` */
    | MethodEnabledAlert(methodName: Value, editUserLink: string)
      /** 7809: `new_method`, `old_method`, `EditUserLink` */
    | MethodChangedAlert(newMethod: Value, oldMethod: Value, editUserLink: string)
      /** 7810: `EditUserLink`, `old_method` */
    | StatusRemovedAlert(editUserLink: string, oldMethod: Value)
      /** 7811: `EditUserLink` */
    | LockedAlert(editUserLink: string)
      /** 7812: `EditUserLink` */
    | UnlockedAlert(editUserLink: string)
      /** 7813 (codes added) or 7814 (codes regenerated): `User`, `CurrentUserID`, `GeneratedCodes`, `EditUserLink` */
    | BackupCodesAlert(code: int, user: Value, currentUserId: Value, generatedCodes: Value, editUserLink: string)
      /** 7815: `User`, `CurrentUserID`, `BackupCode`, `EditUserLink` */
    | BackupCodeLoginAlert(user: Value, currentUserId: Value, backupCode: Value, editUserLink: string)

  /** The event code of an alert. */
  function Code(a: Alert): int {
    match a
    case PolicyAlert(code, _) => code
    case ListAlert(code, _, _, _) => code
    case ProviderToggleAlert(_, _) => 7804
    case TrustedDevicesAlert(_) => 7805
    case TrustedDevicesPeriodAlert(_, _) => 7806
    case PasswordResetShowAlert(_) => 7807
    case MethodEnabledAlert(_, _) => 7808
    case MethodChangedAlert(_, _, _) => 7809
    case StatusRemovedAlert(_, _) => 7810
    case LockedAlert(_) => 7811
    case UnlockedAlert(_) => 7812
    case BackupCodesAlert(code, _, _, _, _) => code
    case BackupCodeLoginAlert(_, _, _, _) => 7815
  }

  /** One call `Alert_Manager::trigger_event($code, $vars)`. */
  datatype Event = Event(code: int, vars: map<string, Value>)

  /** The code and the variable array the sensor builds for an alert. */
  function ToEvent(a: Alert): (e: Event)
    ensures e.code == Code(a)
  {
    match a
    case PolicyAlert(code, p) => Event(code, map["new_policy" := p])
    case ListAlert(code, l, o, n) =>
      Event(code, map["changed_list" := Str(l), "old_list" := Str(o), "new_list" := Str(n)])
    case ProviderToggleAlert(m, t) => Event(7804, map["method" := m, "EventType" := t])
    case TrustedDevicesAlert(t) => Event(7805, map["EventType" := t])
    case TrustedDevicesPeriodAlert(o, n) => Event(7806, map["old_value" := o, "new_value" := n])
    case PasswordResetShowAlert(t) => Event(7807, map["EventType" := t])
    case MethodEnabledAlert(m, link) => Event(7808, map["method" := m, "EditUserLink" := Str(link)])
    case MethodChangedAlert(n, o, link) =>
      Event(7809, map["new_method" := n, "old_method" := o, "EditUserLink" := Str(link)])
    case StatusRemovedAlert(link, o) => Event(7810, map["EditUserLink" := Str(link), "old_method" := o])
    case LockedAlert(link) => Event(7811, map["EditUserLink" := Str(link)])
    case UnlockedAlert(link) => Event(7812, map["EditUserLink" := Str(link)])
    case BackupCodesAlert(code, u, id, codes, link) =>
      Event(code, map["User" := u, "CurrentUserID" := id, "GeneratedCodes" := codes, "EditUserLink" := Str(link)])
    case BackupCodeLoginAlert(u, id, c, link) =>
      Event(7815, map["User" := u, "CurrentUserID" := id, "BackupCode" := c, "EditUserLink" := Str(link)])
  }

  /** Every value an alert reports reaches `trigger_event`: distinct alerts give distinct events. */
  lemma ToEventInjective(a: Alert, b: Alert)
    requires ToEvent(a) == ToEvent(b)
    ensures a == b
  {
    if a.PolicyAlert? || a.ListAlert? || a.ProviderToggleAlert? || a.TrustedDevicesAlert? {
      PolicyEventsInjective(a, b);
    } else if a.TrustedDevicesPeriodAlert? || a.PasswordResetShowAlert? || a.MethodEnabledAlert? || a.MethodChangedAlert? {
      SettingsEventsInjective(a, b);
    } else if a.StatusRemovedAlert? || a.LockedAlert? || a.UnlockedAlert? {
      LinkEventsInjective(a, b);
    } else {
      BackupEventsInjective(a, b);
    }
  }

  /** `ToEventInjective` for the enforcement, list, provider and trusted-devices alerts. */
  lemma PolicyEventsInjective(a: Alert, b: Alert)
    requires ToEvent(a) == ToEvent(b)
    requires a.PolicyAlert? || a.ListAlert? || a.ProviderToggleAlert? || a.TrustedDevicesAlert?
    ensures a == b
  {
    var v := ToEvent(b).vars;
    match a
    case PolicyAlert(_, p) => assert "new_policy" in v && v["new_policy"] == p;
    case ListAlert(_, l, o, n) =>
      assert "changed_list" in v && v["changed_list"] == Str(l) && v["old_list"] == Str(o) && v["new_list"] == Str(n);
    case ProviderToggleAlert(m, t) => assert "method" in v && v["method"] == m && v["EventType"] == t;
    case TrustedDevicesAlert(t) => assert "EventType" in v && v["EventType"] == t;
  }

  /** `ToEventInjective` for the period, password-reset and enabled-method alerts. */
  lemma SettingsEventsInjective(a: Alert, b: Alert)
    requires ToEvent(a) == ToEvent(b)
    requires a.TrustedDevicesPeriodAlert? || a.PasswordResetShowAlert? || a.MethodEnabledAlert? || a.MethodChangedAlert?
    ensures a == b
  {
    var v := ToEvent(b).vars;
    match a
    case TrustedDevicesPeriodAlert(o, n) => assert "old_value" in v && v["old_value"] == o && v["new_value"] == n;
    case PasswordResetShowAlert(t) => assert "EventType" in v && v["EventType"] == t;
    case MethodEnabledAlert(m, link) => assert "method" in v && v["method"] == m && v["EditUserLink"] == Str(link);
    case MethodChangedAlert(n, o, link) =>
      assert "new_method" in v && v["new_method"] == n && v["old_method"] == o && v["EditUserLink"] == Str(link);
  }

  /** `ToEventInjective` for the status, lock and unlock alerts. */
  lemma LinkEventsInjective(a: Alert, b: Alert)
    requires ToEvent(a) == ToEvent(b)
    requires a.StatusRemovedAlert? || a.LockedAlert? || a.UnlockedAlert?
    ensures a == b
  {
    var v := ToEvent(b).vars;
    match a
    case StatusRemovedAlert(link, o) =>
      assert "old_method" in v && v["old_method"] == o && v["EditUserLink"] == Str(link);
    case LockedAlert(link) =>
      assert "EditUserLink" in v && v["EditUserLink"] == Str(link) && "User" !in v;
    case UnlockedAlert(link) =>
      assert "EditUserLink" in v && v["EditUserLink"] == Str(link) && "User" !in v;
  }

  /** `ToEventInjective` for the backup-code alerts. */
  lemma BackupEventsInjective(a: Alert, b: Alert)
    requires ToEvent(a) == ToEvent(b)
    requires a.BackupCodesAlert? || a.BackupCodeLoginAlert?
    ensures a == b
  {
    var v := ToEvent(b).vars;
    match a
    case BackupCodesAlert(_, u, id, codes, link) =>
      assert "GeneratedCodes" in v && v["User"] == u && v["CurrentUserID"] == id && v["GeneratedCodes"] == codes
             && v["EditUserLink"] == Str(link);
    case BackupCodeLoginAlert(u, id, c, link) =>
      assert "BackupCode" in v && v["User"] == u && v["CurrentUserID"] == id && v["BackupCode"] == c
             && v["EditUserLink"] == Str(link);
  }

  /** The events of a batch, dispatched in order. */
  function ToEvents(batch: seq<Alert>): (r: seq<Event>)
    ensures |r| == |batch|
    ensures forall k :: 0 <= k < |batch| ==> r[k] == ToEvent(batch[k])
  {
    seq(|batch|, k requires 0 <= k < |batch| => ToEvent(batch[k]))
  }

  /** The page `network_admin_url('user-edit.php')` points at; the site's own URL prefix is not modelled. */
  const UserEditPage := "user-edit.php"

  /** The query that `add_query_arg('user_id', ...)` appends to the page. */
  const UserIdQuery := "?user_id="

  /** `add_query_arg('user_id', $user_id, network_admin_url('user-edit.php'))`: the edit page, then the
      user id in decimal. */
  function EditUserLink(userId: int): (r: string)
    ensures |r| > |UserEditPage + UserIdQuery|
    ensures r[..|UserEditPage + UserIdQuery|] == UserEditPage + UserIdQuery
    ensures r[|UserEditPage + UserIdQuery|..] == IntToDecimal(userId)
  {
    UserEditPage + UserIdQuery + IntToDecimal(userId)
  }

  /** `! empty($v) ? 'enabled' : 'disabled'`, the `EventType` variable of the toggle alerts. */
  function EventType(v: Value): (r: Value)
    ensures r == Str("enabled") <==> !IsEmpty(v)
    ensures r == Str("disabled") <==> IsEmpty(v)
  {
    Str(if IsEmpty(v) then "disabled" else "enabled")
  }

  // ---------------------------------------------------------------------------
  // Views of a batch

  /** The alerts of `batch` whose code is `code`, in batch order. */
  function Select(batch: seq<Alert>, code: int): (r: seq<Alert>)
    ensures |r| <= |batch|
    decreases |batch|
  {
    if batch == [] then []
    else (if Code(batch[0]) == code then [batch[0]] else []) + Select(batch[1..], code)
  }

  /** Selecting from a concatenation selects from each part, keeping their order. */
  lemma {:induction false} SelectAppend(a: seq<Alert>, b: seq<Alert>, code: int)
    ensures Select(a + b, code) == Select(a, code) + Select(b, code)
    decreases |a|
  {
    if a == [] {
      assert a + b == b;
    } else {
      var head := if Code(a[0]) == code then [a[0]] else [];
      calc {
        Select(a + b, code);
        { assert (a + b)[0] == a[0]; assert (a + b)[1..] == a[1..] + b; }
        head + Select(a[1..] + b, code);
        { SelectAppend(a[1..], b, code); }
        head + (Select(a[1..], code) + Select(b, code));
        (head + Select(a[1..], code)) + Select(b, code);
        Select(a, code) + Select(b, code);
      }
    }
  }

  /** A batch of at most one alert selects itself for its code and nothing for any other. */
  lemma SelectShort(batch: seq<Alert>, code: int)
    requires |batch| <= 1
    ensures Select(batch, code) == if batch != [] && Code(batch[0]) == code then batch else []
  {
    if batch != [] {
      assert batch[1..] == [];
    }
  }

  /** A batch without the code selects nothing. */
  lemma {:induction false} SelectAbsent(batch: seq<Alert>, code: int)
    requires forall k :: 0 <= k < |batch| ==> Code(batch[k]) != code
    ensures Select(batch, code) == []
    decreases |batch|
  {
    if batch != [] {
      SelectAbsent(batch[1..], code);
    }
  }

  /** A batch of one code selects all of itself for that code and nothing for any other. */
  lemma {:induction false} SelectUniform(batch: seq<Alert>, code: int, c: int)
    requires forall k :: 0 <= k < |batch| ==> Code(batch[k]) == code
    ensures Select(batch, c) == if c == code then batch else []
    decreases |batch|
  {
    if batch != [] {
      SelectUniform(batch[1..], code, c);
      if c == code {
        assert batch == [batch[0]] + batch[1..];
      }
    }
  }

  /** Every alert of `batch` has a code in `lo..hi`. */
  predicate CodesWithin(batch: seq<Alert>, lo: int, hi: int) {
    forall k :: 0 <= k < |batch| ==> lo <= Code(batch[k]) <= hi
  }

  /** The codes of `batch` never decrease from one alert to a later one. */
  predicate CodesAscending(batch: seq<Alert>) {
    forall i, j :: 0 <= i < j < |batch| ==> Code(batch[i]) <= Code(batch[j])
  }

  /** Two ascending batches whose codes are separated by `mid` concatenate to an ascending batch. */
  lemma AscendingAppend(a: seq<Alert>, b: seq<Alert>, lo: int, mid: int, hi: int)
    requires CodesAscending(a) && CodesAscending(b)
    requires CodesWithin(a, lo, mid) && CodesWithin(b, mid, hi)
    requires lo <= mid <= hi
    ensures CodesAscending(a + b) && CodesWithin(a + b, lo, hi)
  {
    forall i, j | 0 <= i < j < |a + b|
      ensures Code((a + b)[i]) <= Code((a + b)[j])
    {
      if j < |a| {
        assert (a + b)[i] == a[i] && (a + b)[j] == a[j];
      } else if i >= |a| {
        assert (a + b)[i] == b[i - |a|] && (a + b)[j] == b[j - |a|];
      } else {
        assert (a + b)[i] == a[i] && (a + b)[j] == b[j - |a|];
      }
    }
    forall k | 0 <= k < |a + b| ensures lo <= Code((a + b)[k]) <= hi {
      if k < |a| {
        assert (a + b)[k] == a[k];
      } else {
        assert (a + b)[k] == b[k - |a|];
      }
    }
  }
}
