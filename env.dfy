/**
 * `validateEnv`: the start-up check of the process environment. A key
 * counts as missing when it is unset or set to the empty string; any
 * missing key throws one error listing them all, and a Supabase URL that
 * is not https only warns.
 *
 * The environment is a map from names to values; the console is the list
 * of warnings returned.
 */
module Env {
  import opened Js

  const Required: seq<string> := [
    "NEXT_PUBLIC_URL",
    "NEXT_PUBLIC_SUPABASE_URL",
    "NEXT_PUBLIC_SUPABASE_ANON_KEY",
    "SUPABASE_SERVICE_ROLE_KEY",
    "GOOGLE_GENERATIVE_AI_API_KEY",
    "STRIPE_SECRET_KEY",
    "STRIPE_WEBHOOK_SECRET"
  ]

  const Header := "Missing required environment variables:\n"
  const SupabaseUrlWarning := "NEXT_PUBLIC_SUPABASE_URL should start with https://"

  datatype Validation = Valid(warnings: seq<string>) | Threw(message: string)

  /** `process.env[key]` is truthy: set and not empty. */
  predicate IsSet(env: map<string, string>, key: string) {
    key in env && env[key] != ""
  }

  /** `keys.filter((key) => !process.env[key])` */
  function MissingFrom(keys: seq<string>, env: map<string, string>): seq<string> {
    if keys == [] then []
    else (if IsSet(env, keys[0]) then [] else [keys[0]]) + MissingFrom(keys[1..], env)
  }

  /** The filter keeps exactly the unset keys. */
  lemma {:induction false} MissingFromMembers(keys: seq<string>, env: map<string, string>)
    ensures |MissingFrom(keys, env)| <= |keys|
    ensures forall k :: k in MissingFrom(keys, env) <==> k in keys && !IsSet(env, k)
  {
    if keys != [] {
      MissingFromMembers(keys[1..], env);
      assert keys == [keys[0]] + keys[1..];
    }
  }

  function Missing(env: map<string, string>): seq<string> {
    MissingFrom(Required, env)
  }

  /** `missing.map((m) => ' - ' + m)` */
  function Bullets(keys: seq<string>): (r: seq<string>)
    ensures |r| == |keys| && forall i :: 0 <= i < |keys| ==> r[i] == " - " + keys[i]
  {
    seq(|keys|, i requires 0 <= i < |keys| => " - " + keys[i])
  }

  function Validate(env: map<string, string>): Validation {
    var missing := Missing(env);
    if |missing| > 0 then Threw(Header + Join(Bullets(missing), "\n"))
    else
      MissingFromMembers(Required, env);
      assert "NEXT_PUBLIC_SUPABASE_URL" in Required;
      if !StartsWith(env["NEXT_PUBLIC_SUPABASE_URL"], "https://") then Valid([SupabaseUrlWarning])
      else Valid([])
  }

  // ---------------------------------------------------------------------
  // Properties
  // ---------------------------------------------------------------------

  /** The filter keeps the list's order: filtering a concatenation filters
      each part. */
  lemma {:induction false} MissingFromSplits(a: seq<string>, b: seq<string>, env: map<string, string>)
    ensures MissingFrom(a + b, env) == MissingFrom(a, env) + MissingFrom(b, env)
    decreases |a|
  {
    if a == [] {
      assert a + b == b;
    } else {
      assert (a + b)[1..] == a[1..] + b;
      MissingFromSplits(a[1..], b, env);
    }
  }

  /** The filter keeps the list's order: a key that neighbours others in
      the list keeps its place among the missing ones, and a set key is
      dropped. */
  lemma KeyInPlace(a: seq<string>, x: string, b: seq<string>, env: map<string, string>)
    ensures MissingFrom(a + [x] + b, env) ==
      MissingFrom(a, env) + (if IsSet(env, x) then [] else [x]) + MissingFrom(b, env)
  {
    MissingFromSplits(a, [x], env);
    MissingFromSplits(a + [x], b, env);
  }

  /** `missing` is exactly the required keys that are unset or empty;
      with every key set it is empty, with none set it is the whole list. */
  lemma MissingKeys(env: map<string, string>)
    ensures forall k :: k in Missing(env) <==> k in Required && !IsSet(env, k)
    ensures (forall k :: k in Required ==> IsSet(env, k)) ==> Missing(env) == []
    ensures (forall k :: k in Required ==> !IsSet(env, k)) ==> Missing(env) == Required
  {
    MissingFromMembers(Required, env);
    if forall k :: k in Required ==> IsSet(env, k) {
      AllSet(Required, env);
    }
    if forall k :: k in Required ==> !IsSet(env, k) {
      NoneSet(Required, env);
    }
  }

  lemma {:induction false} AllSet(keys: seq<string>, env: map<string, string>)
    requires forall k :: k in keys ==> IsSet(env, k)
    ensures MissingFrom(keys, env) == []
  {
    if keys != [] {
      assert keys[0] in keys;
      AllSet(keys[1..], env);
    }
  }

  lemma {:induction false} NoneSet(keys: seq<string>, env: map<string, string>)
    requires forall k :: k in keys ==> !IsSet(env, k)
    ensures MissingFrom(keys, env) == keys
  {
    if keys != [] {
      assert keys[0] in keys;
      NoneSet(keys[1..], env);
    }
  }

  /** The validator throws exactly when some key is missing; the message
      is the header and then one " - KEY" line per missing key, in order. */
  lemma ThrowsIffMissing(env: map<string, string>)
    ensures Validate(env).Threw? <==> Missing(env) != []
    ensures Validate(env).Threw? ==>
      Validate(env).message == Header + Join(Bullets(Missing(env)), "\n")
      && StartsWith(Validate(env).message, Header)
    ensures |Missing(env)| == 1 ==> Validate(env) == Threw(Header + " - " + Missing(env)[0])
  {
  }

  /** Each missing key is named on a line of its own in the message. */
  lemma MessageNamesEveryKey(env: map<string, string>, k: string)
    requires k in Missing(env)
    ensures Validate(env).Threw? && Includes(Validate(env).message, " - " + k)
  {
    var missing := Missing(env);
    MissingFromMembers(Required, env);
    var i :| 0 <= i < |missing| && missing[i] == k;
    var bullets := Bullets(missing);
    var at := JoinContains(bullets, "\n", i);
    OccursAfter(Header, Join(bullets, "\n"), bullets[i], at);
  }

  lemma OccursAfter(p: string, s: string, t: string, at: nat)
    requires OccursAt(s, t, at)
    ensures OccursAt(p + s, t, |p| + at)
  {
    assert (p + s)[|p| + at..|p| + at + |t|] == s[at..at + |t|];
  }

  /** Every part of a join occurs in it. */
  lemma {:induction false} JoinContains(parts: seq<string>, sep: string, i: nat) returns (at: nat)
    requires i < |parts|
    ensures OccursAt(Join(parts, sep), parts[i], at)
  {
    if |parts| == 1 {
      at := 0;
      assert Join(parts, sep)[0..|parts[0]|] == parts[0];
    } else if i == 0 {
      at := 0;
      assert Join(parts, sep) == parts[0] + (sep + Join(parts[1..], sep));
    } else {
      var rest := JoinContains(parts[1..], sep, i - 1);
      var prefix := parts[0] + sep;
      at := |prefix| + rest;
      assert Join(parts, sep) == prefix + Join(parts[1..], sep);
      assert Join(parts, sep)[at..at + |parts[i]|] == Join(parts[1..], sep)[rest..rest + |parts[i]|];
    }
  }

  /** With every key present the validator never throws: a Supabase URL
      that does not start with "https://" yields the one warning, any
      other yields none. */
  lemma InsecureUrlOnlyWarns(env: map<string, string>)
    requires Missing(env) == []
    ensures Validate(env).Valid?
    ensures "NEXT_PUBLIC_SUPABASE_URL" in env
    ensures Validate(env).warnings ==
      (if StartsWith(env["NEXT_PUBLIC_SUPABASE_URL"], "https://") then [] else [SupabaseUrlWarning])
  {
    MissingFromMembers(Required, env);
    assert "NEXT_PUBLIC_SUPABASE_URL" in Required;
  }
}
