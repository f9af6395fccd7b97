/**
  The environment vector: a growable, NULL-terminated array of "name=value" strings,
  and the lookup that applications make in it.
 */
module Environment {
  import opened Seqs
  import opened Protocol
  import opened NameValue

  /**
    A `char *` cell: NULL, or a buffer given by its bytes, NULs among them included, up to the
    terminator put there last.
   */
  datatype Slot = Null | Str(text: seq<byte>)

  const EQUALS: byte := 61

  function Bytes(s: string): (w: seq<byte>)
    ensures |w| == |s|
  {
    seq(|s|, i requires 0 <= i < |s| => s[i] as int % 256)
  }

  /** The environment string ReadParams builds for one pair. */
  function Entry(p: Pair): (s: seq<byte>)
    ensures |s| == |p.name| + 1 + |p.value|
  {
    p.name + [EQUALS] + p.value
  }

  function Entries(ps: seq<Pair>): (es: seq<seq<byte>>)
    ensures |es| == |ps|
    ensures forall i :: 0 <= i < |ps| ==> es[i] == Entry(ps[i])
  {
    seq(|ps|, i requires 0 <= i < |ps| => Entry(ps[i]))
  }

  /** The string that C sees in a buffer: the bytes up to the first NUL. */
  function CString(s: seq<byte>): (c: seq<byte>)
    ensures c <= s && 0 !in c && (|c| < |s| ==> s[|c|] == 0)
  {
    if s == [] || s[0] == 0 then [] else [s[0]] + CString(s[1..])
  }

  /** `n` strings followed by the terminating NULL. */
  ghost predicate Terminated(vec: array<Slot>, n: nat)
    reads vec
  {
    && n < vec.Length
    && vec[n] == Null
    && forall i :: 0 <= i < n ==> vec[i].Str?
  }

  ghost function Strings(vec: array<Slot>, n: nat): (es: seq<seq<byte>>)
    requires Terminated(vec, n)
    reads vec
    ensures |es| == n
    ensures forall i :: 0 <= i < n ==> es[i] == vec[i].text
  {
    seq(n, i requires 0 <= i < n && Terminated(vec, n) reads vec => vec[i].text)
  }

  class Params {
    var vec: array<Slot>
    var cur: nat

    ghost predicate Valid()
      reads this, vec
    {
      Terminated(vec, cur)
    }

    /** The strings in the vector, in order. */
    ghost function Contents(): (es: seq<seq<byte>>)
      requires Valid()
      reads this, vec
      ensures |es| == cur
    {
      Strings(vec, cur)
    }

    /** NewParams. */
    constructor (length: nat)
      requires length > 0
      ensures Valid() && fresh(vec)
      ensures Contents() == [] && vec.Length == length
    {
      vec := new Slot[length];
      cur := 0;
      new;
      vec[0] := Null;
    }

    method PutParam(nameValue: seq<byte>)
      requires Valid()
      modifies this, vec
      ensures Valid() && (vec == old(vec) || fresh(vec))
      ensures Contents() == old(Contents()) + [nameValue]
      ensures vec.Length == if old(cur) + 1 < old(vec.Length) then old(vec.Length) else 2 * old(vec.Length)
    {
      vec[cur] := Str(nameValue);
      cur := cur + 1;
      if cur >= vec.Length {
        var bigger := new Slot[2 * vec.Length];
        forall i | 0 <= i < cur {
          bigger[i] := vec[i];
        }
        vec := bigger;
      }
      vec[cur] := Null;
    }
  }

  /**
    strncmp(name, entry, len) == 0 and entry[len] == '='; for a name without NUL one in the entry
    ends the comparison.
   */
  predicate Binds(name: seq<byte>, entry: seq<byte>) {
    && |name| < |entry|
    && entry[..|name|] == name
    && entry[|name|] == EQUALS
  }

  /** The value the first entry binding `name` gives it. */
  function FirstBinding(name: seq<byte>, es: seq<seq<byte>>): Slot {
    if es == [] then Null
    else if Binds(name, es[0]) then Str(CString(es[0][|name| + 1..]))
    else FirstBinding(name, es[1..])
  }

  /** FCGX_GetParam, over the array that an Accept left in envp. */
  method GetParam(name: Slot, envp: array?<Slot>, ghost n: nat) returns (value: Slot)
    requires envp != null ==> Terminated(envp, n)
    ensures name == Null || envp == null ==> value == Null
    ensures name.Str? && envp != null ==> value == FirstBinding(CString(name.text), Strings(envp, n))
  {
    if name == Null || envp == null {
      return Null;
    }
    var p, text := 0, CString(name.text);
    ghost var es := Strings(envp, n);
    while envp[p] != Null
      invariant p <= n
      invariant FirstBinding(text, es) == FirstBinding(text, es[p..])
      decreases n - p
    {
      DropNext(es, p);
      if Strncmp(text, envp[p].text, |text|) && |text| < |envp[p].text| && envp[p].text[|text|] == EQUALS {
        return Str(CString(envp[p].text[|text| + 1..]));
      }
      p := p + 1;
    }
    return Null;
  }

  /** strncmp(a, b, n) == 0: equal up to `n` characters or the first NUL in both; ends of buffers are NULs. */
  predicate Strncmp(a: seq<byte>, b: seq<byte>, n: nat)
    ensures n == |a| && 0 !in a ==> (Strncmp(a, b, n) <==> a <= b)
    decreases n
  {
    if n == 0 then true
    else
      var x, y := if a == [] then 0 else a[0], if b == [] then 0 else b[0];
      x == y && (x == 0 || Strncmp(a[1..], b[1..], n - 1))
  }

  /** The value of the first pair with that name: what a caller means by looking it up. */
  function FirstValue(name: seq<byte>, ps: seq<Pair>): Slot {
    if ps == [] then Null
    else if ps[0].name == name then Str(CString(ps[0].value))
    else FirstValue(name, ps[1..])
  }

  /** An entry binds `name` exactly when its pair has that name, or one extending it past an '='. */
  lemma EntryBinds(name: seq<byte>, p: Pair)
    requires EQUALS !in name
    ensures Binds(name, Entry(p)) <==> p.name == name || Binds(name, p.name)
  {
    var e := Entry(p);
    if |name| > |p.name| {
      assert |name| <= |e| ==> e[..|name|][|p.name|] == EQUALS;
    } else {
      assert e[..|name|] == p.name[..|name|];
    }
  }

  /** One pair answers to its own name alone if and only if that name has no '='. */
  lemma AnswersToOwnNameOnly(p: Pair)
    ensures EQUALS !in p.name
            <==> forall name :: EQUALS !in name ==> (Binds(name, Entry(p)) <==> name == p.name)
  {
    if EQUALS in p.name {
      var k := FirstEquals(p.name);
      EntryBinds(p.name[..k], p);
      assert Binds(p.name[..k], p.name);
      assert p.name[..k] != p.name;
    } else {
      forall name | EQUALS !in name
        ensures Binds(name, Entry(p)) <==> name == p.name
      {
        EntryBinds(name, p);
      }
    }
  }

  function FirstEquals(s: seq<byte>): (k: nat)
    requires EQUALS in s
    ensures k < |s| && s[k] == EQUALS && EQUALS !in s[..k]
  {
    if s[0] == EQUALS then 0
    else
      var k := FirstEquals(s[1..]);
      assert s[..k + 1] == [s[0]] + s[1..][..k];
      k + 1
  }

  /** Lookup returns the value of the first pair with that name. */
  lemma {:induction false} LookupFindsFirstPair(name: seq<byte>, ps: seq<Pair>)
    requires EQUALS !in name
    requires forall i :: 0 <= i < |ps| ==> EQUALS !in ps[i].name
    ensures FirstBinding(name, Entries(ps)) == FirstValue(name, ps)
  {
    if ps != [] {
      EntryBinds(name, ps[0]);
      EntryValue(ps[0]);
      assert Entries(ps)[1..] == Entries(ps[1..]);
      LookupFindsFirstPair(name, ps[1..]);
    }
  }

  lemma EntryValue(p: Pair)
    ensures Entry(p)[|p.name| + 1..] == p.value
  {
  }

  /** A string put in first answers for its name whatever is put in after it. */
  lemma FirstEntryWins(p: Pair, es: seq<seq<byte>>)
    requires EQUALS !in p.name
    ensures FirstBinding(p.name, [Entry(p)] + es) == Str(CString(p.value))
  {
  }
}
