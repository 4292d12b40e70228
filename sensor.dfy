/**
  The 2FA sensor itself: the one piece of state it keeps between hook calls
  (the cached earlier value of a user's enabled methods) and the events it
  hands to `Alert_Manager::trigger_event`, recorded in the order they are
  triggered.

  Each hook handler is a method that mirrors the handler's own branches and
  is proved against the function that specifies its alerts; the cache
  invariant `CacheOnlyMethods` is kept by every method.
 */
module TwoFactorSensor {
  import opened PhpValues
  import opened Alerts
  import opened PolicyClassifier
  import opened UserMetaClassifier

  class Sensor {
    /** `self::$old_user_meta`: the value of the enabled methods stored before the last write of them. */
    var oldUserMeta: Record
    /** Every `trigger_event` call so far, oldest first. */
    var events: seq<Event>

    /** The cache never holds anything but the enabled methods. */
    ghost predicate Valid()
      reads this
    {
      CacheOnlyMethods(oldUserMeta)
    }

    /** A sensor at the start of a request: empty cache, nothing triggered. */
    constructor()
      ensures Valid()
      ensures oldUserMeta == map[] && events == []
    {
      oldUserMeta := map[];
      events := [];
    }

    /** `Alert_Manager::trigger_event($code, $vars)` for one alert. */
    method TriggerEvent(a: Alert)
      requires Valid()
      modifies this`events
      ensures Valid()
      ensures events == old(events) + [ToEvent(a)]
    {
      events := events + [ToEvent(a)];
    }

    /** The closing loop of `settings_trigger`: trigger every alert of the batch, in order. */
    method Dispatch(batch: seq<Alert>)
      requires Valid()
      modifies this`events
      ensures Valid()
      ensures events == old(events) + ToEvents(batch)
    {
      var i := 0;
      while i < |batch|
        invariant 0 <= i <= |batch|
        invariant Valid()
        invariant events == old(events) + ToEvents(batch[..i])
      {
        assert ToEvents(batch[..i + 1]) == ToEvents(batch[..i]) + [ToEvent(batch[i])];
        TriggerEvent(batch[i]);
        i := i + 1;
      }
      assert batch[..i] == batch;
    }

    /** `settings_trigger($option, $old_value, $new_value)`: the batch of `Classify`, dispatched in
        order; when building a list text throws, the error escapes and nothing is triggered. */
    method SettingsTrigger(option: string, oldValue: Record, newValue: Record, registry: Registry)
      returns (thrown: Option<string>)
      requires Valid()
      modifies this`events
      ensures Valid()
      ensures var r := Classify(option, oldValue, newValue, registry);
              && (r.TypeError? ==> thrown == Some(r.message) && events == old(events))
              && (r.Ok? ==> thrown == None && events == old(events) + ToEvents(r.value))
    {
      var batch := Classify(option, oldValue, newValue, registry);
      if batch.TypeError? {
        return Some(batch.message);
      }
      Dispatch(batch.value);
      thrown := None;
    }

    /** `store_user_meta`, run before WordPress adds or updates a user's meta: for the enabled methods,
        cache the value stored now. */
    method StoreUserMeta(userId: int, metaKey: string, table: MetaTable)
      requires Valid()
      modifies this`oldUserMeta
      ensures Valid()
      ensures oldUserMeta == StoreUserMetaCache(old(oldUserMeta), table, userId, metaKey)
    {
      if metaKey == EnabledMethodsKey {
        oldUserMeta := oldUserMeta[EnabledMethodsKey := StoredMeta(table, userId, EnabledMethodsKey)];
      }
    }

    /** `user_trigger`, run after WordPress added or updated `metaKey` to `value` for user `userId`;
        `users` stands for `get_userdata`. */
    method UserTrigger(hook: MetaHook, userId: int, metaKey: string, value: Value, users: map<int, User>)
      requires Valid()
      modifies this`events
      ensures Valid()
      ensures events == old(events) + ToEvents(UserTriggerAlerts(oldUserMeta, hook, userId, metaKey, value, UserData(users, userId)))
    {
      var link := EditUserLink(userId);
      if metaKey == EnabledMethodsKey {
        if IsSet(oldUserMeta, EnabledMethodsKey) && !IsEmpty(oldUserMeta[EnabledMethodsKey]) {
          TriggerEvent(MethodChangedAlert(value, oldUserMeta[EnabledMethodsKey], link));
        } else {
          TriggerEvent(MethodEnabledAlert(value, link));
        }
      }
      if metaKey == IsLockedKey {
        TriggerEvent(LockedAlert(link));
      }
      if metaKey == BackupCodesKey {
        var user := UserData(users, userId);
        var code := BackupCodesAddedCode;
        if hook == UpdatedUserMeta {
          code := BackupCodesUpdatedCode;
          var count := CountOf(value);
          if count != BackupCodesBatch {
            return;
          }
        }
        TriggerEvent(BackupCodesAlert(code, LoginOf(user), IdOf(user), value, link));
      }
    }

    /** `user_deletions_trigger`, run before WordPress deletes `metaKey` for user `userId`. */
    method UserDeletionsTrigger(userId: int, metaKey: string, table: MetaTable)
      requires Valid()
      modifies this`events
      ensures Valid()
      ensures events == old(events) + ToEvents(DeletionAlerts(table, userId, metaKey))
    {
      var link := EditUserLink(userId);
      if metaKey == StatusKey {
        TriggerEvent(StatusRemovedAlert(link, StoredMeta(table, userId, EnabledMethodsKey)));
      }
      if metaKey == IsLockedKey {
        TriggerEvent(UnlockedAlert(link));
      }
    }

    /** `login_actions_trigger`, run after `user` passed 2FA; `request` stands for `$_REQUEST`. */
    method LoginActionsTrigger(user: User, request: Record)
      requires Valid()
      modifies this`events
      ensures Valid()
      ensures events == old(events) + ToEvents(LoginAlerts(user, request))
    {
      if Get(request, ProviderParam) == Str(BackupCodesProvider) {
        if !IsSet(request, BackupCodeParam) {
          return;
        }
        TriggerEvent(BackupCodeLoginAlert(Str(user.login), Int(user.id), request[BackupCodeParam], EditUserLink(user.id)));
      }
    }

    /** One write of user meta as the hooks registered by `early_init` see it: `store_user_meta` on the
        filter before the write, the write itself, then `user_trigger` on the action after it. A write
        of the enabled methods is reported as a change from the value stored before it when that value
        is non-empty, and as a first enabling otherwise. */
    method WriteUserMeta(hook: MetaHook, userId: int, metaKey: string, value: Value, table: MetaTable,
                         users: map<int, User>)
      returns (written: MetaTable)
      requires Valid()
      modifies this
      ensures Valid()
      ensures written == table[userId := (if userId in table then table[userId] else map[])[metaKey := value]]
      ensures userId in written && metaKey in written[userId] && written[userId][metaKey] == value
      ensures forall u :: u in table && u != userId ==> u in written && written[u] == table[u]
      ensures oldUserMeta == StoreUserMetaCache(old(oldUserMeta), table, userId, metaKey)
      ensures events == old(events) + ToEvents(UserTriggerAlerts(oldUserMeta, hook, userId, metaKey, value, UserData(users, userId)))
      ensures metaKey == EnabledMethodsKey ==>
                var before := StoredMeta(table, userId, EnabledMethodsKey);
                events == old(events) + [ToEvent(if !IsEmpty(before) then MethodChangedAlert(value, before, EditUserLink(userId))
                                                 else MethodEnabledAlert(value, EditUserLink(userId)))]
    {
      StoreUserMeta(userId, metaKey, table);
      var meta := if userId in table then table[userId] else map[];
      written := table[userId := meta[metaKey := value]];
      UserTrigger(hook, userId, metaKey, value, users);
    }
  }
}
