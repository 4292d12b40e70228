/**
  What the user-meta, deletion and login paths report: which write yields
  which alert, how the cache filled before a write decides between 7808 and
  7809, the ten-code rule for regenerated backup codes, and the pairing of
  lock and unlock alerts.
 */
module UserMetaProperties {
  import opened PhpValues
  import opened Alerts
  import opened UserMetaClassifier

  // ---------------------------------------------------------------------------
  // user_trigger

  /** `user_trigger` reports a write iff it is to the enabled methods, to the lock flag, or to the
      backup codes when they are added or when an update writes exactly ten of them. */
  lemma UserTriggerReports(cache: Record, hook: MetaHook, userId: int, metaKey: string, value: Value, user: Option<User>)
    ensures UserTriggerAlerts(cache, hook, userId, metaKey, value, user) != [] <==>
              || metaKey == EnabledMethodsKey
              || metaKey == IsLockedKey
              || (metaKey == BackupCodesKey && (hook == AddedUserMeta || CountOf(value) == BackupCodesBatch))
  {
  }

  /** A write of the enabled methods is a change (7809, reporting the cached old value) iff the cache holds
      a non-empty earlier value, and a first enabling (7808) otherwise; both report the written value. */
  lemma EnabledMethodsAlert(cache: Record, hook: MetaHook, userId: int, value: Value, user: Option<User>)
    ensures var r := UserTriggerAlerts(cache, hook, userId, EnabledMethodsKey, value, user);
            && |r| == 1
            && (Code(r[0]) == MethodChangedCode <==> HadMethod(cache))
            && (Code(r[0]) == MethodEnabledCode <==> !HadMethod(cache))
            && (HadMethod(cache) ==> r[0] == MethodChangedAlert(value, cache[EnabledMethodsKey], EditUserLink(userId)))
            && (!HadMethod(cache) ==> r[0] == MethodEnabledAlert(value, EditUserLink(userId)))
  {
    var link := EditUserLink(userId);
    if HadMethod(cache) {
      assert UserTriggerAlerts(cache, hook, userId, EnabledMethodsKey, value, user)
          == [MethodChangedAlert(value, cache[EnabledMethodsKey], link)];
    } else {
      assert UserTriggerAlerts(cache, hook, userId, EnabledMethodsKey, value, user) == [MethodEnabledAlert(value, link)];
    }
  }

  /** Backup codes: an addition is always reported as 7813; an update is reported as 7814 iff the new value
      is an array of exactly ten codes; the alert carries the written codes and the user's login and id. */
  lemma BackupCodesAlerts(cache: Record, hook: MetaHook, userId: int, value: Value, user: Option<User>)
    ensures var r := UserTriggerAlerts(cache, hook, userId, BackupCodesKey, value, user);
            && (hook == AddedUserMeta ==>
                  r == [BackupCodesAlert(BackupCodesAddedCode, LoginOf(user), IdOf(user), value, EditUserLink(userId))])
            && (hook == UpdatedUserMeta ==>
                  (r != [] <==> value.List? && |value.items| == BackupCodesBatch))
            && (hook == UpdatedUserMeta && r != [] ==>
                  r == [BackupCodesAlert(BackupCodesUpdatedCode, LoginOf(user), IdOf(user), value, EditUserLink(userId))])
  {
  }

  /** The cache is filled by `store_user_meta` for whichever user it ran for, and `user_trigger` reads it
      without looking at the user: after a store for user `a`, a write of the enabled methods for any
      user `b` is reported as a change from `a`'s stored value when that value is non-empty. */
  lemma StoreThenTrigger(cache: Record, table: MetaTable, a: int, b: int, hook: MetaHook, value: Value, user: Option<User>)
    ensures var before := StoredMeta(table, a, EnabledMethodsKey);
            UserTriggerAlerts(StoreUserMetaCache(cache, table, a, EnabledMethodsKey), hook, b, EnabledMethodsKey, value, user)
            == if !IsEmpty(before) then [MethodChangedAlert(value, before, EditUserLink(b))]
               else [MethodEnabledAlert(value, EditUserLink(b))]
  {
  }

  /** `store_user_meta` keeps the cache to the enabled-methods key. */
  lemma StorePreservesCacheOnlyMethods(cache: Record, table: MetaTable, userId: int, metaKey: string)
    requires CacheOnlyMethods(cache)
    ensures CacheOnlyMethods(StoreUserMetaCache(cache, table, userId, metaKey))
  {
  }

  /** A user's first enabling: with nothing stored for the enabled methods, a store followed by the write
      reports 7808 with the new value. */
  lemma FirstEnablingReported(cache: Record, table: MetaTable, userId: int, hook: MetaHook, value: Value, user: Option<User>)
    requires userId !in table || EnabledMethodsKey !in table[userId]
    ensures UserTriggerAlerts(StoreUserMetaCache(cache, table, userId, EnabledMethodsKey), hook, userId, EnabledMethodsKey, value, user)
            == [MethodEnabledAlert(value, EditUserLink(userId))]
  {
    StoreThenTrigger(cache, table, userId, userId, hook, value, user);
  }

  // ---------------------------------------------------------------------------
  // user_deletions_trigger

  /** Deleting the 2FA status reports 7810 with the enabled methods still stored ("" when none);
      deleting the lock flag reports 7812; no other deletion is reported. */
  lemma DeletionReports(table: MetaTable, userId: int, metaKey: string)
    ensures var r := DeletionAlerts(table, userId, metaKey);
            && (r != [] <==> metaKey == StatusKey || metaKey == IsLockedKey)
            && (metaKey == StatusKey ==>
                  r == [StatusRemovedAlert(EditUserLink(userId), StoredMeta(table, userId, EnabledMethodsKey))])
            && (metaKey == IsLockedKey ==> r == [UnlockedAlert(EditUserLink(userId))])
  {
  }

  /** After the enabled methods of a user are written, deleting that user's 2FA status reports the
      written value as the old method. */
  lemma StatusRemovalReportsWrittenMethod(table: MetaTable, userId: int, value: Value)
    ensures var meta := if userId in table then table[userId] else map[];
            var written := table[userId := meta[EnabledMethodsKey := value]];
            DeletionAlerts(written, userId, StatusKey) == [StatusRemovedAlert(EditUserLink(userId), value)]
  {
  }

  /** Locking and unlocking a user are reported as a 7811/7812 pair naming the same user link. */
  lemma LockUnlockPair(cache: Record, table: MetaTable, hook: MetaHook, userId: int, value: Value, user: Option<User>)
    ensures UserTriggerAlerts(cache, hook, userId, IsLockedKey, value, user) == [LockedAlert(EditUserLink(userId))]
    ensures DeletionAlerts(table, userId, IsLockedKey) == [UnlockedAlert(EditUserLink(userId))]
  {
  }

  // ---------------------------------------------------------------------------
  // login_actions_trigger

  /** A login is reported iff the request names the backup-codes provider and carries a backup code;
      the alert reports that code and the user. */
  lemma LoginReports(user: User, request: Record)
    ensures var r := LoginAlerts(user, request);
            && (r != [] <==> Get(request, ProviderParam) == Str(BackupCodesProvider) && IsSet(request, BackupCodeParam))
            && (r != [] ==> r == [BackupCodeLoginAlert(Str(user.login), Int(user.id), Get(request, BackupCodeParam), EditUserLink(user.id))])
  {
  }

  // ---------------------------------------------------------------------------
  // The user link

  /** The decimal form of a number ends with its last digit, after the decimal form of the rest. */
  lemma NatToDecimalShape(n: nat)
    ensures |NatToDecimal(n)| >= 1
    ensures NatToDecimal(n)[|NatToDecimal(n)| - 1] == DigitChar(n % 10)
    ensures n < 10 <==> |NatToDecimal(n)| == 1
    ensures n >= 10 ==> NatToDecimal(n)[..|NatToDecimal(n)| - 1] == NatToDecimal(n / 10)
    ensures NatToDecimal(n)[0] != '-'
  {
    if n >= 10 {
      NatToDecimalShape(n / 10);
      var s := NatToDecimal(n / 10);
      assert NatToDecimal(n) == s + [DigitChar(n % 10)];
      assert NatToDecimal(n)[0] == s[0];
    }
  }

  /** Distinct numbers have distinct decimal forms. */
  lemma {:induction false} NatToDecimalInjective(a: nat, b: nat)
    requires NatToDecimal(a) == NatToDecimal(b)
    ensures a == b
    decreases a
  {
    NatToDecimalShape(a);
    NatToDecimalShape(b);
    var s := NatToDecimal(a);
    assert DigitChar(a % 10) == DigitChar(b % 10);
    assert a % 10 == b % 10 by {
      assert "0123456789"[a % 10] == "0123456789"[b % 10];
    }
    if a >= 10 {
      NatToDecimalInjective(a / 10, b / 10);
    }
  }

  /** Distinct integers have distinct decimal forms. */
  lemma IntToDecimalInjective(a: int, b: int)
    requires IntToDecimal(a) == IntToDecimal(b)
    ensures a == b
  {
    if a < 0 && b < 0 {
      assert NatToDecimal(-a) == IntToDecimal(a)[1..];
      NatToDecimalInjective(-a, -b);
    } else if a >= 0 && b >= 0 {
      NatToDecimalInjective(a, b);
    } else if a < 0 {
      NatToDecimalShape(b);
    } else {
      NatToDecimalShape(a);
    }
  }

  /** The edit link names its user: distinct users get distinct links. */
  lemma EditUserLinkInjective(a: int, b: int)
    requires EditUserLink(a) == EditUserLink(b)
    ensures a == b
  {
    IntToDecimalInjective(a, b);
  }
}
