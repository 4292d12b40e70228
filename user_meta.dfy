/**
  The user-meta paths of the 2FA sensor: the cache `store_user_meta` fills
  before a meta write, the alerts `user_trigger` emits after it (7808, 7809,
  7811, 7813, 7814), the alerts `user_deletions_trigger` emits before a meta
  deletion (7810, 7812), and the backup-code login alert of
  `login_actions_trigger` (7815).

  WordPress's user-meta table, its user records and the request superglobal
  are parameters.
 */
module UserMetaClassifier {
  import opened PhpValues
  import opened Alerts

  const EnabledMethodsKey := "wp_2fa_enabled_methods"
  const IsLockedKey := "wp_2fa_is_locked"
  const BackupCodesKey := "wp_2fa_backup_codes"
  const StatusKey := "wp_2fa_2fa_status"

  /** The number of backup codes a regeneration writes; an update with any other count is not reported. */
  const BackupCodesBatch := 10

  const ProviderParam := "provider"
  const BackupCodesProvider := "backup_codes"
  const BackupCodeParam := "wp-2fa-backup-code"

  const MethodEnabledCode := 7808
  const MethodChangedCode := 7809
  const StatusRemovedCode := 7810
  const LockedCode := 7811
  const UnlockedCode := 7812
  const BackupCodesAddedCode := 7813
  const BackupCodesUpdatedCode := 7814
  const BackupCodeLoginCode := 7815

  /** The action `user_trigger` runs under, as `current_filter()` reports it. */
  datatype MetaHook = AddedUserMeta | UpdatedUserMeta

  /** The fields of a `WP_User` the sensor reads. */
  datatype User = User(login: string, id: int)

  /** WordPress's user-meta table: user id to that user's meta keys and values. */
  type MetaTable = map<int, Record>

  /** `get_user_meta($user_id, $key, true)`: the stored value, or "" when the user or the key has none. */
  function StoredMeta(table: MetaTable, userId: int, key: string): (r: Value)
    ensures userId in table && key in table[userId] ==> r == table[userId][key]
    ensures !(userId in table && key in table[userId]) ==> r == Str("")
  {
    if userId in table && key in table[userId] then table[userId][key] else Str("")
  }

  /** `$user->user_login` where `$user` is `get_userdata()`'s result: null (with a PHP warning) when no user. */
  function LoginOf(user: Option<User>): Value {
    if user.Some? then Str(user.value.login) else Null
  }

  /** `$user->ID`, null when no user. */
  function IdOf(user: Option<User>): Value {
    if user.Some? then Int(user.value.id) else Null
  }

  /** `get_userdata($user_id)`: the user with that id, if any. */
  function UserData(users: map<int, User>, userId: int): Option<User> {
    if userId in users then Some(users[userId]) else None
  }

  /** `is_array($v) ? count($v) : 0`. */
  function CountOf(v: Value): (r: nat)
    ensures v.List? ==> r == |v.items|
    ensures r != 0 ==> v.List?
  {
    if v.List? then |v.items| else 0
  }

  // ---------------------------------------------------------------------------
  // store_user_meta

  /** The cache after `store_user_meta`: for the enabled-methods key it remembers the value stored
      before the write, under that key alone and whatever the user; other keys leave it alone. */
  function StoreUserMetaCache(cache: Record, table: MetaTable, userId: int, metaKey: string): (r: Record)
    ensures metaKey == EnabledMethodsKey ==>
              r.Keys == cache.Keys + {EnabledMethodsKey} && r[EnabledMethodsKey] == StoredMeta(table, userId, EnabledMethodsKey)
    ensures forall k :: k in cache && k != EnabledMethodsKey ==> k in r && r[k] == cache[k]
    ensures metaKey != EnabledMethodsKey ==> r == cache
  {
    if metaKey == EnabledMethodsKey then cache[EnabledMethodsKey := StoredMeta(table, userId, EnabledMethodsKey)]
    else cache
  }

  /** The cache holds nothing but the enabled methods. */
  predicate CacheOnlyMethods(cache: Record) {
    cache.Keys <= {EnabledMethodsKey}
  }

  // ---------------------------------------------------------------------------
  // user_trigger

  /** The cache holds a non-empty earlier value of the enabled methods. */
  predicate HadMethod(cache: Record) {
    IsSet(cache, EnabledMethodsKey) && !IsEmpty(cache[EnabledMethodsKey])
  }

  /** The alerts of `user_trigger` for a write of `value` under `metaKey` for user `userId`;
      `user` is what `get_userdata($user_id)` returns. */
  function UserTriggerAlerts(cache: Record, hook: MetaHook, userId: int, metaKey: string, value: Value,
                             user: Option<User>): (r: seq<Alert>)
    ensures |r| <= 1
  {
    var link := EditUserLink(userId);
    if metaKey == EnabledMethodsKey then
      if HadMethod(cache) then [MethodChangedAlert(value, cache[EnabledMethodsKey], link)]
      else [MethodEnabledAlert(value, link)]
    else if metaKey == IsLockedKey then
      [LockedAlert(link)]
    else if metaKey == BackupCodesKey then
      if hook == UpdatedUserMeta && CountOf(value) != BackupCodesBatch then []
      else
        var code := if hook == UpdatedUserMeta then BackupCodesUpdatedCode else BackupCodesAddedCode;
        [BackupCodesAlert(code, LoginOf(user), IdOf(user), value, link)]
    else []
  }

  // ---------------------------------------------------------------------------
  // user_deletions_trigger

  /** The alerts of `user_deletions_trigger` before `metaKey` is deleted for user `userId`. */
  function DeletionAlerts(table: MetaTable, userId: int, metaKey: string): (r: seq<Alert>)
    ensures |r| <= 1
  {
    var link := EditUserLink(userId);
    if metaKey == StatusKey then [StatusRemovedAlert(link, StoredMeta(table, userId, EnabledMethodsKey))]
    else if metaKey == IsLockedKey then [UnlockedAlert(link)]
    else []
  }

  // ---------------------------------------------------------------------------
  // login_actions_trigger

  /** The alerts of `login_actions_trigger` for a user who just passed 2FA, given the request parameters. */
  function LoginAlerts(user: User, request: Record): (r: seq<Alert>)
    ensures |r| <= 1
  {
    if Get(request, ProviderParam) == Str(BackupCodesProvider) && IsSet(request, BackupCodeParam) then
      [BackupCodeLoginAlert(Str(user.login), Int(user.id), request[BackupCodeParam], EditUserLink(user.id))]
    else []
  }
}
