/** `deepFind`: the fallback search of a JSON tree for the first property whose
    key matches a word pattern and whose value coerces to a number. */
module DeepFind {
  import opened Js
  import opened Coerce

  /* ---------- the shape of the tree ---------- */

  /** Number of nodes, the measure that makes the explicit-stack search end. */
  function Size(v: Json): (n: nat)
    ensures n >= 1
  {
    match v
    case JArr(elems) => 1 + SumElems(elems)
    case JObj(props) => 1 + SumProps(props)
    case _ => 1
  }

  function SumElems(elems: seq<Json>): nat
  {
    if elems == [] then 0 else SumElems(elems[..|elems| - 1]) + Size(elems[|elems| - 1])
  }

  function SumProps(props: seq<Prop>): nat
  {
    if props == [] then 0 else SumProps(props[..|props| - 1]) + Size(props[|props| - 1].value)
  }

  /** Sum of the sizes of a stack of trees. */
  function SumSizes(stack: seq<Json>): nat
  {
    if stack == [] then 0 else SumSizes(stack[..|stack| - 1]) + Size(stack[|stack| - 1])
  }

  /** `v && typeof v === 'object'`: arrays and objects. */
  predicate IsObject(v: Json)
  {
    v.JArr? || v.JObj?
  }

  /** Number of `Object.entries(v)` of an array or object. Strings, which also
      have entries, are never searched: the search only enters objects. */
  function EntryCount(v: Json): nat
  {
    match v
    case JArr(elems) => |elems|
    case JObj(props) => |props|
    case _ => 0
  }

  /** The key of entry `i`: the index, written in decimal, for an array. */
  function EntryKey(v: Json, i: nat): string
    requires i < EntryCount(v)
  {
    match v
    case JArr(_) => Render(i)
    case JObj(props) => props[i].key
  }

  /** Sum of the sizes of the first `i` entry values. */
  function PrefixSize(v: Json, i: nat): nat
    requires i <= EntryCount(v)
  {
    match v
    case JArr(elems) => SumElems(elems[..i])
    case JObj(props) => SumProps(props[..i])
    case _ => 0
  }

  /** The value of entry `i`, before its size is known to be smaller. */
  function Child(v: Json, i: nat): Json
    requires i < EntryCount(v)
  {
    match v
    case JArr(elems) => elems[i]
    case JObj(props) => props[i].value
  }

  lemma PrefixStep(v: Json, i: nat)
    requires i < EntryCount(v)
    ensures PrefixSize(v, i + 1) == PrefixSize(v, i) + Size(Child(v, i))
  {
    match v
    case JArr(elems) =>
      assert elems[..i + 1][..i] == elems[..i];
    case JObj(props) =>
      assert props[..i + 1][..i] == props[..i];
  }

  lemma {:induction false} PrefixBound(v: Json, i: nat)
    requires i <= EntryCount(v)
    ensures PrefixSize(v, i) <= Size(v) - 1
    ensures i == EntryCount(v) ==> PrefixSize(v, i) == Size(v) - 1
    decreases EntryCount(v) - i
  {
    if i < EntryCount(v) {
      PrefixBound(v, i + 1);
      PrefixStep(v, i);
    } else {
      match v
      case JArr(elems) => assert elems[..i] == elems;
      case JObj(props) => assert props[..i] == props;
      case _ =>
    }
  }

  /** The value of entry `i`; it is a strictly smaller tree. */
  function EntryValue(v: Json, i: nat): (r: Json)
    requires i < EntryCount(v)
    ensures r == Child(v, i)
    ensures Size(r) < Size(v)
  {
    PrefixStep(v, i);
    PrefixBound(v, i + 1);
    Child(v, i)
  }

  /** Sum of the sizes of the entry values from `i` on. */
  function Remaining(v: Json, i: nat): nat
    requires i <= EntryCount(v)
  {
    PrefixBound(v, i);
    Size(v) - 1 - PrefixSize(v, i)
  }

  /* ---------- the key pattern ---------- */

  /** `\w`: the characters a word boundary `\b` looks at. */
  predicate IsWordChar(c: char)
  {
    'a' <= c <= 'z' || 'A' <= c <= 'Z' || '0' <= c <= '9' || c == '_'
  }

  function LowerAscii(c: char): char
  {
    if 'A' <= c <= 'Z' then (c as int + 32) as char else c
  }

  /** The word `w` (lower case) occurs in `key` at `i`, ignoring ASCII case, with
      a word boundary on both sides. */
  predicate WordAt(key: string, w: string, i: nat)
  {
    && i + |w| <= |key|
    && (forall k :: 0 <= k < |w| ==> LowerAscii(key[i + k]) == w[k])
    && (i == 0 || !IsWordChar(key[i - 1]))
    && (i + |w| == |key| || !IsWordChar(key[i + |w|]))
  }

  /** `/\b(w1|w2|...)\b/i.test(key)` for lower-case words that begin and end with
      a letter. */
  predicate KeyMatches(key: string, words: seq<string>)
  {
    exists j, i :: 0 <= j < |words| && 0 <= i <= |key| && WordAt(key, words[j], i)
  }

  function Lower(s: string): (r: string)
    ensures |r| == |s| && forall k :: 0 <= k < |s| ==> r[k] == LowerAscii(s[k])
  {
    seq(|s|, k requires 0 <= k < |s| => LowerAscii(s[k]))
  }

  /** A key made only of word characters (a camelCase name, say) matches exactly
      when, ignoring case, it is one of the words: `basePrice` never matches
      `base`. */
  lemma WholeWordKey(key: string, words: seq<string>)
    requires forall k :: 0 <= k < |key| ==> IsWordChar(key[k])
    ensures KeyMatches(key, words) <==> Lower(key) in words
  {
    if KeyMatches(key, words) {
      var j, i :| 0 <= j < |words| && 0 <= i <= |key| && WordAt(key, words[j], i);
      assert i == 0;
      assert |words[j]| == |key|;
      assert Lower(key) == words[j];
    }
    if Lower(key) in words {
      var j :| 0 <= j < |words| && words[j] == Lower(key);
      assert WordAt(key, words[j], 0);
    }
  }

  /* ---------- the search, as a function ---------- */

  /** The entry `i` of `v` matches and its value coerces. */
  predicate DirectHit(v: Json, i: nat, keyRe: string -> bool)
  {
    i < EntryCount(v) && keyRe(EntryKey(v, i))
    && AsNum(Some(EntryValue(v, i))).Some?
  }

  /** Some entry anywhere in the tree matches and coerces. */
  predicate AnyHit(v: Json, keyRe: string -> bool)
    decreases Size(v)
  {
    exists i :: 0 <= i < EntryCount(v) && (DirectHit(v, i, keyRe) || AnyHit(EntryValue(v, i), keyRe))
  }

  /** Some entry anywhere in the tree matches and coerces to `n`. */
  predicate HitIn(v: Json, n: real, keyRe: string -> bool)
    decreases Size(v)
  {
    exists i :: 0 <= i < EntryCount(v) &&
      ((keyRe(EntryKey(v, i)) && AsNum(Some(EntryValue(v, i))) == Some(n))
       || HitIn(EntryValue(v, i), n, keyRe))
  }

  /** The search from a stack of trees: pop the last, test its entries in order,
      pushing the values that are objects, and return the first match whose
      value coerces. */
  function Search(stack: seq<Json>, keyRe: string -> bool): Option<real>
    decreases SumSizes(stack), 0
  {
    if stack == [] then None
    else
      var it := stack[|stack| - 1];
      PrefixBound(it, 0);
      Scan(it, 0, stack[..|stack| - 1], keyRe)
  }

  /** Testing the entries of `it` from `i` on, with `stack` still to search. */
  function Scan(it: Json, i: nat, stack: seq<Json>, keyRe: string -> bool): Option<real>
    requires i <= EntryCount(it)
    decreases SumSizes(stack) + Remaining(it, i), EntryCount(it) - i + 1
  {
    if i == EntryCount(it) then Search(stack, keyRe)
    else
      var k, v := EntryKey(it, i), EntryValue(it, i);
      PrefixStep(it, i);
      PrefixBound(it, i + 1);
      if keyRe(k) && AsNum(Some(v)).Some? then AsNum(Some(v))
      else if IsObject(v) then
        assert SumSizes(stack + [v]) == SumSizes(stack) + Size(v) by {
          assert (stack + [v])[..|stack|] == stack;
        }
        Scan(it, i + 1, stack + [v], keyRe)
      else Scan(it, i + 1, stack, keyRe)
  }

  /** `deepFind(obj, keyRe)`, with `keyRe.test` as the key test. */
  function Find(obj: Json, keyRe: string -> bool): Option<real>
  {
    Search([obj], keyRe)
  }

  /* ---------- the search, as the source runs it ---------- */

  /** The stack-driven loop of `deepFind`. */
  method DeepFind(obj: Json, keyRe: string -> bool) returns (r: Option<real>)
    ensures r == Find(obj, keyRe)
  {
    var stack := [obj];
    while stack != []
      invariant Search(stack, keyRe) == Find(obj, keyRe)
      decreases SumSizes(stack)
    {
      ghost var before := SumSizes(stack);
      var it := stack[|stack| - 1];
      SearchStep(stack, keyRe);
      PopSize(stack);
      stack := stack[..|stack| - 1];
      if IsObject(it) {
        var i := 0;
        while i < EntryCount(it)
          invariant i <= EntryCount(it)
          invariant Scan(it, i, stack, keyRe) == Find(obj, keyRe)
          invariant SumSizes(stack) + Remaining(it, i) <= before - 1
          decreases EntryCount(it) - i
        {
          var k, v := EntryKey(it, i), EntryValue(it, i);
          ScanStep(it, i, stack, keyRe);
          RemainingStep(it, i);
          if keyRe(k) {
            var n := AsNum(Some(v));
            if n.Some? {
              return n;
            }
          }
          if IsObject(v) {
            PushSize(stack, v);
            stack := stack + [v];
          }
          i := i + 1;
        }
        ScanEnd(it, stack, keyRe);
      } else {
        ScanEnd(it, stack, keyRe);
      }
    }
    return None;
  }

  lemma PopSize(stack: seq<Json>)
    requires stack != []
    ensures SumSizes(stack) == SumSizes(stack[..|stack| - 1]) + Size(stack[|stack| - 1])
  {
  }

  lemma PushSize(stack: seq<Json>, v: Json)
    ensures SumSizes(stack + [v]) == SumSizes(stack) + Size(v)
  {
    assert (stack + [v])[..|stack|] == stack;
  }

  lemma RemainingStep(it: Json, i: nat)
    requires i < EntryCount(it)
    ensures Remaining(it, i) == Remaining(it, i + 1) + Size(EntryValue(it, i))
  {
    PrefixStep(it, i);
    PrefixBound(it, i + 1);
  }

  lemma ScanEnd(it: Json, stack: seq<Json>, keyRe: string -> bool)
    ensures Remaining(it, EntryCount(it)) == 0
    ensures Scan(it, EntryCount(it), stack, keyRe) == Search(stack, keyRe)
  {
    PrefixBound(it, EntryCount(it));
  }

  /* ---------- what the search finds ---------- */

  /** A found number is the coerced value of a matching entry somewhere in one
      of the trees on the stack. */
  lemma SearchSound(stack: seq<Json>, keyRe: string -> bool, n: real)
    requires Search(stack, keyRe) == Some(n)
    ensures exists k :: 0 <= k < |stack| && HitIn(stack[k], n, keyRe)
    decreases SumSizes(stack), 0
  {
    var it := stack[|stack| - 1];
    var rest := stack[..|stack| - 1];
    PrefixBound(it, 0);
    ScanSound(it, 0, rest, keyRe, n);
    if exists j :: 0 <= j < EntryCount(it) && EntryHit(it, j, n, keyRe) {
      assert HitIn(it, n, keyRe);
      assert stack[|stack| - 1] == it;
    } else {
      var k :| 0 <= k < |rest| && HitIn(rest[k], n, keyRe);
      assert stack[k] == rest[k];
    }
  }

  predicate EntryHit(it: Json, j: nat, n: real, keyRe: string -> bool)
    requires j < EntryCount(it)
  {
    (keyRe(EntryKey(it, j)) && AsNum(Some(EntryValue(it, j))) == Some(n))
    || HitIn(EntryValue(it, j), n, keyRe)
  }

  lemma ScanSound(it: Json, i: nat, stack: seq<Json>, keyRe: string -> bool, n: real)
    requires i <= EntryCount(it)
    requires Scan(it, i, stack, keyRe) == Some(n)
    ensures (exists j :: i <= j < EntryCount(it) && EntryHit(it, j, n, keyRe))
         || (exists k :: 0 <= k < |stack| && HitIn(stack[k], n, keyRe))
    decreases SumSizes(stack) + Remaining(it, i), EntryCount(it) - i + 1
  {
    if i == EntryCount(it) {
      SearchSound(stack, keyRe, n);
    } else {
      var k, v := EntryKey(it, i), EntryValue(it, i);
      PrefixStep(it, i);
      PrefixBound(it, i + 1);
      if keyRe(k) && AsNum(Some(v)).Some? {
        assert EntryHit(it, i, n, keyRe);
      } else if IsObject(v) {
        assert SumSizes(stack + [v]) == SumSizes(stack) + Size(v) by {
          assert (stack + [v])[..|stack|] == stack;
        }
        ScanSound(it, i + 1, stack + [v], keyRe, n);
        if exists k' :: 0 <= k' < |stack + [v]| && HitIn((stack + [v])[k'], n, keyRe) {
          var k' :| 0 <= k' < |stack + [v]| && HitIn((stack + [v])[k'], n, keyRe);
          if k' == |stack| {
            assert EntryHit(it, i, n, keyRe);
          } else {
            assert HitIn(stack[k'], n, keyRe);
          }
        }
      } else {
        ScanSound(it, i + 1, stack, keyRe, n);
      }
    }
  }

  /** Nothing found means no entry anywhere in the trees on the stack matches
      with a coercible value. */
  lemma SearchComplete(stack: seq<Json>, keyRe: string -> bool)
    requires Search(stack, keyRe).None?
    ensures forall k :: 0 <= k < |stack| ==> !AnyHit(stack[k], keyRe)
    decreases SumSizes(stack), 0
  {
    if stack != [] {
      var it := stack[|stack| - 1];
      var rest := stack[..|stack| - 1];
      SearchStep(stack, keyRe);
      PrefixBound(it, 0);
      ScanComplete(it, 0, rest, keyRe);
      NoEntryHit(it, keyRe);
      forall k | 0 <= k < |stack| ensures !AnyHit(stack[k], keyRe) {
        if k < |rest| {
          assert stack[k] == rest[k];
        } else {
          assert stack[k] == it;
        }
      }
    }
  }

  /** Neither entry `j` of `it` nor anything below it is a hit. */
  predicate EntryMiss(it: Json, j: nat, keyRe: string -> bool)
    requires j < EntryCount(it)
  {
    !DirectHit(it, j, keyRe) && !AnyHit(EntryValue(it, j), keyRe)
  }

  lemma NoEntryHit(it: Json, keyRe: string -> bool)
    requires forall j :: 0 <= j < EntryCount(it) ==> EntryMiss(it, j, keyRe)
    ensures !AnyHit(it, keyRe)
  {
    forall j | 0 <= j < EntryCount(it)
      ensures !(DirectHit(it, j, keyRe) || AnyHit(EntryValue(it, j), keyRe))
    {
      assert EntryMiss(it, j, keyRe);
    }
  }

  /** One step of `Search`: popping the last tree. */
  lemma SearchStep(stack: seq<Json>, keyRe: string -> bool)
    requires stack != []
    ensures PrefixSize(stack[|stack| - 1], 0) == 0
    ensures Search(stack, keyRe) == Scan(stack[|stack| - 1], 0, stack[..|stack| - 1], keyRe)
  {
  }

  /** One step of `Scan`. */
  lemma ScanStep(it: Json, i: nat, stack: seq<Json>, keyRe: string -> bool)
    requires i < EntryCount(it)
    ensures Scan(it, i, stack, keyRe) ==
      var v := EntryValue(it, i);
      if keyRe(EntryKey(it, i)) && AsNum(Some(v)).Some? then AsNum(Some(v))
      else if IsObject(v) then Scan(it, i + 1, stack + [v], keyRe)
      else Scan(it, i + 1, stack, keyRe)
  {
  }

  lemma ScanComplete(it: Json, i: nat, stack: seq<Json>, keyRe: string -> bool)
    requires i <= EntryCount(it)
    requires Scan(it, i, stack, keyRe).None?
    ensures forall j :: i <= j < EntryCount(it) ==> EntryMiss(it, j, keyRe)
    ensures forall k :: 0 <= k < |stack| ==> !AnyHit(stack[k], keyRe)
    decreases SumSizes(stack) + Remaining(it, i), EntryCount(it) - i + 1
  {
    if i == EntryCount(it) {
      SearchComplete(stack, keyRe);
    } else {
      var v := EntryValue(it, i);
      PrefixStep(it, i);
      PrefixBound(it, i + 1);
      ScanStep(it, i, stack, keyRe);
      assert !DirectHit(it, i, keyRe);
      if IsObject(v) {
        var pushed := stack + [v];
        assert SumSizes(pushed) == SumSizes(stack) + Size(v) by {
          assert pushed[..|stack|] == stack;
        }
        ScanComplete(it, i + 1, pushed, keyRe);
        assert pushed[|stack|] == v;
        assert EntryMiss(it, i, keyRe);
        forall k | 0 <= k < |stack| ensures !AnyHit(stack[k], keyRe) {
          assert pushed[k] == stack[k];
        }
      } else {
        ScanComplete(it, i + 1, stack, keyRe);
        assert EntryCount(v) == 0;
        assert !AnyHit(v, keyRe);
        assert EntryMiss(it, i, keyRe);
      }
    }
  }

  lemma {:induction false} HitIsAnyHit(v: Json, n: real, keyRe: string -> bool)
    requires HitIn(v, n, keyRe)
    ensures AnyHit(v, keyRe)
    decreases Size(v)
  {
    var i :| 0 <= i < EntryCount(v) &&
      ((keyRe(EntryKey(v, i)) && AsNum(Some(EntryValue(v, i))) == Some(n))
       || HitIn(EntryValue(v, i), n, keyRe));
    if !DirectHit(v, i, keyRe) {
      HitIsAnyHit(EntryValue(v, i), n, keyRe);
    }
  }

  /** The value of the first entry of `v` itself, from the `i`-th on, that
      matches and coerces. */
  function FirstDirect(v: Json, i: nat, keyRe: string -> bool): Option<real>
    requires i <= EntryCount(v)
    decreases EntryCount(v) - i
  {
    if i == EntryCount(v) then None
    else if DirectHit(v, i, keyRe) then AsNum(Some(EntryValue(v, i)))
    else FirstDirect(v, i + 1, keyRe)
  }

  lemma ScanFirst(it: Json, i: nat, stack: seq<Json>, keyRe: string -> bool)
    requires i <= EntryCount(it)
    requires FirstDirect(it, i, keyRe).Some?
    ensures Scan(it, i, stack, keyRe) == FirstDirect(it, i, keyRe)
    decreases EntryCount(it) - i
  {
    var v := EntryValue(it, i);
    PrefixStep(it, i);
    PrefixBound(it, i + 1);
    if !DirectHit(it, i, keyRe) {
      if IsObject(v) {
        ScanFirst(it, i + 1, stack + [v], keyRe);
      } else {
        ScanFirst(it, i + 1, stack, keyRe);
      }
    }
  }

  /** What `deepFind` returns: nothing exactly when no key anywhere in the tree
      matches with a coercible value; otherwise the coerced value of some such
      entry; and the object's own entries are all examined, in order, before any
      nested object, so a match among them wins. */
  lemma FindSpec(obj: Json, keyRe: string -> bool)
    ensures Find(obj, keyRe).None? <==> !AnyHit(obj, keyRe)
    ensures Find(obj, keyRe).Some? ==> HitIn(obj, Find(obj, keyRe).value, keyRe)
    ensures FirstDirect(obj, 0, keyRe).Some? ==> Find(obj, keyRe) == FirstDirect(obj, 0, keyRe)
  {
    if FirstDirect(obj, 0, keyRe).Some? {
      SearchStep([obj], keyRe);
      assert [obj][..0] == [];
      ScanFirst(obj, 0, [], keyRe);
    }
    match Find(obj, keyRe)
    case None =>
      SearchComplete([obj], keyRe);
    case Some(n) =>
      SearchSound([obj], keyRe, n);
      HitIsAnyHit(obj, n, keyRe);
  }
}
