/**
 * The dynamic equality filter of the PostgreSQL user store: `queryComposer` turns a
 * column-name-to-value map into a WHERE fragment with positional placeholders and the
 * list of values bound to them.
 */
module QueryComposition {

  /** The character of a decimal digit. */
  function Digit(d: nat): char
    requires d < 10
  {
    (d + 48) as char
  }

  /** Decimal rendering of a natural number, as `%d` prints it. */
  function NatToString(n: nat): (s: string)
    ensures |s| >= 1
    decreases n
  {
    if n < 10 then [Digit(n)] else NatToString(n / 10) + [Digit(n % 10)]
  }

  /** Distinct numbers are printed differently. */
  lemma {:induction false} NatToStringInjective(a: nat, b: nat)
    requires NatToString(a) == NatToString(b)
    ensures a == b
    decreases a
  {
    var s := NatToString(a);
    if a < 10 && b < 10 {
      assert Digit(a) == s[0] == Digit(b);
    } else if a >= 10 && b >= 10 {
      assert Digit(a % 10) == s[|s| - 1] == Digit(b % 10);
      assert NatToString(a / 10) == s[..|s| - 1] == NatToString(b / 10);
      NatToStringInjective(a / 10, b / 10);
    } else {
      // one rendering has a single digit, the other at least two
      assert false;
    }
  }

  /** The positional parameter `$i`. */
  function Placeholder(i: nat): string
  {
    "$" + NatToString(i)
  }

  /** Two different positions never share a placeholder. */
  lemma PlaceholdersDistinct(i: nat, j: nat)
    requires i != j
    ensures Placeholder(i) != Placeholder(j)
  {
    if Placeholder(i) == Placeholder(j) {
      assert NatToString(i) == Placeholder(i)[1..] == NatToString(j);
      NatToStringInjective(i, j);
    }
  }

  /** `fmt.Sprintf(" %s = $%d ", key, index)`: the column name and the placeholder, never the value. */
  function Expression(key: string, index: nat): string
  {
    " " + key + " = " + Placeholder(index) + " "
  }

  /** The expressions for the keys in `order`, numbered from 1. */
  function Expressions(order: seq<string>): (es: seq<string>)
    ensures |es| == |order|
    ensures forall i :: 0 <= i < |order| ==> es[i] == Expression(order[i], i + 1)
  {
    seq(|order|, i requires 0 <= i < |order| => Expression(order[i], i + 1))
  }

  /** `strings.Join`: the parts with `sep` between consecutive ones. */
  function Join(parts: seq<string>, sep: string): string
  {
    if |parts| == 0 then ""
    else if |parts| == 1 then parts[0]
    else parts[0] + sep + Join(parts[1..], sep)
  }

  /** Every expression followed by a conjunction: "AND" between two, " AND" after the last. */
  function Conjunction(es: seq<string>): string
    requires |es| >= 1
  {
    if |es| == 1 then es[0] + " AND" else es[0] + "AND" + Conjunction(es[1..])
  }

  /**
   * Joining with "AND" and appending " AND" leaves every expression, the last one included,
   * followed by a conjunction, so the fixed predicate the caller appends is conjoined with all of them.
   */
  lemma {:induction false} JoinedIsConjunction(es: seq<string>)
    requires |es| >= 1
    ensures Join(es, "AND") + " AND" == Conjunction(es)
  {
    if |es| > 1 {
      JoinedIsConjunction(es[1..]);
      calc {
        Join(es, "AND") + " AND";
        (es[0] + "AND" + Join(es[1..], "AND")) + " AND";
        es[0] + "AND" + (Join(es[1..], "AND") + " AND");
      }
    }
  }

  /** The fragment the composer returns for a non-empty map enumerated in `order`. */
  function Fragment(order: seq<string>): string
  {
    Join(Expressions(order), "AND") + " AND"
  }

  /** `order` lists every key of `keys` exactly once: one possible iteration order of a Go map. */
  ghost predicate Enumerates(order: seq<string>, keys: set<string>)
  {
    && (forall i, j :: 0 <= i < j < |order| ==> order[i] != order[j])
    && (forall i :: 0 <= i < |order| ==> order[i] in keys)
    && (forall k :: k in keys ==> k in order)
  }

  /**
   * queryComposer. The map is iterated in an unspecified order; `order` is the sequence of keys
   * the fragment names, in the order taken. Expression i names the i-th key with placeholder
   * $i, and the i-th bound parameter is that key's value. The fragment is built from the keys alone.
   */
  method QueryComposer(terms: map<string, string>) returns (fragment: string, params: seq<string>, order: seq<string>)
    ensures Enumerates(order, terms.Keys)
    ensures |params| == |order| == |terms|
    ensures forall i :: 0 <= i < |order| ==> params[i] == terms[order[i]]
    ensures |terms| == 0 ==> fragment == "" && params == []
    ensures |terms| != 0 ==> fragment == Fragment(order)
  {
    if |terms| == 0 {
      return "", [], [];
    }
    var expressions: seq<string> := [];
    var index := 1;
    params := [];
    order := [];
    var remaining := terms.Keys;
    while remaining != {}
      invariant remaining <= terms.Keys
      invariant |order| + |remaining| == |terms.Keys|
      invariant index == |order| + 1
      invariant |params| == |order|
      invariant expressions == Expressions(order)
      invariant forall i :: 0 <= i < |order| ==> order[i] in terms && order[i] !in remaining
      invariant forall i, j :: 0 <= i < j < |order| ==> order[i] != order[j]
      invariant forall k :: k in terms && k !in remaining ==> k in order
      invariant forall i :: 0 <= i < |order| ==> params[i] == terms[order[i]]
      decreases remaining
    {
      var key :| key in remaining;
      expressions := expressions + [Expression(key, index)];
      params := params + [terms[key]];
      order := order + [key];
      index := index + 1;
      remaining := remaining - {key};
    }
    fragment := Join(expressions, "AND") + " AND";
  }
}
