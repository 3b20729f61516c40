/**
 * The key under which a player's counter for an advancement is stored:
 * namespace "advancement_api", and the advancement key with its first ':'
 * replaced by '.' (`advancementKey.replaceFirst(":", ".")`).
 */
module StorageKeys {

  const ApiNamespace: string := "advancement_api"

  /** A Bukkit `NamespacedKey`: a namespace and a key within it. */
  datatype NamespacedKey = NamespacedKey(namespace: string, key: string)

  /** `s` with its first occurrence of `from` replaced by `to`. */
  function ReplaceFirst(s: string, from: char, to: char): string
  {
    if s == [] then []
    else if s[0] == from then [to] + s[1..]
    else [s[0]] + ReplaceFirst(s[1..], from, to)
  }

  /** The storage key of an advancement key. */
  function StorageKey(advancementKey: string): NamespacedKey
  {
    NamespacedKey(ApiNamespace, ReplaceFirst(advancementKey, ':', '.'))
  }

  /** `ReplaceFirst` keeps the length, and changes nothing when `from` does not occur. */
  lemma {:induction false} ReplaceFirstAbsent(s: string, from: char, to: char)
    ensures |ReplaceFirst(s, from, to)| == |s|
    ensures from !in s ==> ReplaceFirst(s, from, to) == s
  {
    if s != [] {
      ReplaceFirstAbsent(s[1..], from, to);
      assert from !in s ==> from !in s[1..] by {
        assert forall c :: c in s[1..] ==> c in s;
      }
    }
  }

  /** When the first `from` is at position `i`, exactly that position becomes `to`. */
  lemma {:induction false} ReplaceFirstAt(s: string, from: char, to: char, i: nat)
    requires i < |s| && s[i] == from
    requires forall j :: 0 <= j < i ==> s[j] != from
    ensures ReplaceFirst(s, from, to) == s[..i] + [to] + s[i + 1..]
  {
    if i > 0 {
      var tail := s[1..];
      ReplaceFirstAt(tail, from, to, i - 1);
      assert tail[..i - 1] == s[1..i] && tail[i..] == s[i + 1..];
      assert s[..i] == [s[0]] + s[1..i];
    }
  }

  /** On strings that do not contain `to`, `ReplaceFirst` is injective. */
  lemma {:induction false} ReplaceFirstInjective(s: string, t: string, from: char, to: char)
    requires to !in s && to !in t
    requires ReplaceFirst(s, from, to) == ReplaceFirst(t, from, to)
    ensures s == t
  {
    ReplaceFirstAbsent(s, from, to);
    ReplaceFirstAbsent(t, from, to);
    if s != [] {
      var rs, rt := ReplaceFirst(s, from, to), ReplaceFirst(t, from, to);
      assert s[0] in s && t[0] in t;
      assert rs[0] == (if s[0] == from then to else s[0]);
      assert rt[0] == (if t[0] == from then to else t[0]);
      if s[0] == from {
        assert t[0] == from;
        assert s[1..] == rs[1..] == rt[1..] == t[1..];
      } else {
        assert t[0] != from;
        assert ReplaceFirst(s[1..], from, to) == rs[1..];
        assert ReplaceFirst(t[1..], from, to) == rt[1..];
        assert to !in s[1..] by { assert forall c :: c in s[1..] ==> c in s; }
        assert to !in t[1..] by { assert forall c :: c in t[1..] ==> c in t; }
        ReplaceFirstInjective(s[1..], t[1..], from, to);
        assert s == [s[0]] + s[1..] && t == [t[0]] + t[1..];
      }
    }
  }

  /**
   * Advancement keys without a '.' get distinct storage keys; this is what
   * keeps the counters of two such advancements apart.
   */
  lemma StorageKeyInjective(a: string, b: string)
    requires '.' !in a && '.' !in b
    requires StorageKey(a) == StorageKey(b)
    ensures a == b
  {
    ReplaceFirstInjective(a, b, ':', '.');
  }

  /**
   * The mapping is not injective in general: a key with ':' and the same key
   * with '.' in its place share one counter.
   */
  lemma StorageKeysCanCollide()
    ensures StorageKey("demo:trade") == StorageKey("demo.trade")
    ensures StorageKey("demo:trade") == NamespacedKey(ApiNamespace, "demo.trade")
  {
    var withColon, withDot := "demo:trade", "demo.trade";
    ReplaceFirstAt(withColon, ':', '.', 4);
    assert withColon[..4] + ['.'] + withColon[5..] == withDot;
    assert forall i :: 0 <= i < |withDot| ==> withDot[i] != ':';
    ReplaceFirstAbsent(withDot, ':', '.');
  }

  /** Only the first ':' is replaced. */
  lemma OnlyFirstColonReplaced()
    ensures StorageKey("a:b:c") == NamespacedKey(ApiNamespace, "a.b:c")
  {
    ReplaceFirstAt("a:b:c", ':', '.', 1);
  }
}
