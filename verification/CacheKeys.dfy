/** src/modules/common/utils/helpers/CacheAccess.helper.ts and the keys built with it. */
module CacheKeys {
  const SUBSCRIPTIONS := "subscriptions"
  const HOOKS := "hooks"

  /** String.replace with a string pattern and nothing to put in its place. */
  function RemoveFirst(s: string, pattern: string): string {
    if pattern <= s then s[|pattern|..]
    else if s == "" then ""
    else [s[0]] + RemoveFirst(s[1..], pattern)
  }

  function GenerateKey(id: string, keyPattern: string): string {
    keyPattern + ":" + id
  }

  function GetId(key: string, keyPattern: string): string {
    RemoveFirst(key, keyPattern + ":")
  }

  predicate OccursAt(s: string, pattern: string, i: nat) {
    i <= |s| && pattern <= s[i..]
  }

  lemma OccursAtTail(s: string, pattern: string, i: nat)
    requires s != ""
    ensures OccursAt(s[1..], pattern, i) <==> OccursAt(s, pattern, i + 1)
  {
    if i < |s| {
      assert s[1..][i..] == s[i + 1..];
    }
  }

  /** Only the first occurrence goes, wherever it is. */
  lemma {:induction false} RemoveFirstAt(s: string, pattern: string, i: nat)
    requires OccursAt(s, pattern, i) && forall j: nat | j < i :: !OccursAt(s, pattern, j)
    ensures RemoveFirst(s, pattern) == s[..i] + s[i..][|pattern|..]
    decreases i
  {
    if i == 0 {
      assert s[0..] == s && s[..0] == "";
    } else {
      assert !OccursAt(s, pattern, 0) && s[0..] == s;
      OccursAtTail(s, pattern, i - 1);
      forall j: nat | j < i - 1 ensures !OccursAt(s[1..], pattern, j) {
        OccursAtTail(s, pattern, j);
      }
      RemoveFirstAt(s[1..], pattern, i - 1);
      TailParts(s, i);
    }
  }

  lemma TailParts(s: string, i: nat)
    requires 0 < i <= |s|
    ensures s[..i] == [s[0]] + s[1..][..i - 1] && s[1..][i - 1..] == s[i..]
  {}

  /** Without an occurrence nothing goes. */
  lemma {:induction false} RemoveFirstAbsent(s: string, pattern: string)
    requires forall i: nat :: !OccursAt(s, pattern, i)
    ensures RemoveFirst(s, pattern) == s
  {
    assert s[0..] == s && !OccursAt(s, pattern, 0);
    if s != "" {
      forall i: nat ensures !OccursAt(s[1..], pattern, i) {
        OccursAtTail(s, pattern, i);
        assert !OccursAt(s, pattern, i + 1);
      }
      RemoveFirstAbsent(s[1..], pattern);
    }
  }

  /** The id comes back even when it holds the pattern itself. */
  lemma KeyRoundTrip(id: string, keyPattern: string)
    ensures GetId(GenerateKey(id, keyPattern), keyPattern) == id
  {
    assert GenerateKey(id, keyPattern)[..|keyPattern + ":"|] == keyPattern + ":";
  }

  lemma KeysAreInjective(id: string, other: string, keyPattern: string)
    requires GenerateKey(id, keyPattern) == GenerateKey(other, keyPattern)
    ensures id == other
  {
    KeyRoundTrip(id, keyPattern);
    KeyRoundTrip(other, keyPattern);
  }

  function HookKey(schema: string, hookId: string): string {
    GenerateKey(schema + ":" + hookId, HOOKS)
  }

  /** The keys a listing of one schema asks for. */
  predicate IsHookKey(key: string, schema: string) {
    HOOKS + ":" + schema + ":" <= key
  }

  function HookId(key: string, schema: string): string {
    GetId(GetId(key, HOOKS), schema)
  }

  lemma HookKeyText(schema: string, hookId: string)
    ensures HookKey(schema, hookId) == "hooks:" + schema + ":" + hookId
    ensures IsHookKey(HookKey(schema, hookId), schema)
  {
    assert HookKey(schema, hookId) == "hooks" + ":" + (schema + ":" + hookId);
  }

  /** Stripping a listed key twice and building it again gives that key: what is deleted is what
      was listed. */
  lemma ListedKeyRoundTrip(key: string, schema: string)
    requires IsHookKey(key, schema)
    ensures HookKey(schema, HookId(key, schema)) == key
  {
    var prefix := HOOKS + ":" + schema + ":";
    var id := key[|prefix|..];
    assert key == prefix + id;
    assert key == GenerateKey(GenerateKey(id, schema), HOOKS);
    KeyRoundTrip(GenerateKey(id, schema), HOOKS);
    KeyRoundTrip(id, schema);
  }

  lemma HookKeyListed(schema: string, hookId: string)
    ensures IsHookKey(HookKey(schema, hookId), schema) && HookId(HookKey(schema, hookId), schema) == hookId
  {
    var prefix := HOOKS + ":" + schema + ":";
    assert HookKey(schema, hookId) == prefix + hookId;
    ListedKeyRoundTrip(HookKey(schema, hookId), schema);
    assert HookKey(schema, hookId)[|prefix|..] == hookId;
    KeyRoundTrip(GenerateKey(hookId, schema), HOOKS);
    KeyRoundTrip(hookId, schema);
    assert HookKey(schema, hookId) == GenerateKey(GenerateKey(hookId, schema), HOOKS);
  }
}
