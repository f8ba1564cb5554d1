/** The category list of the listing page (`fetchCategories` in app/page.tsx):
    the payload of `/api/categories` is trusted only as far as it is an array,
    and only its string entries are kept. */
module CategoryDirectory {

  import opened Json

  /** How a category fetch ended: `Failed` covers a non-OK status, a network
      error and a body that is not JSON; `Received` carries the decoded body. */
  datatype CategoryFetch = Failed | Received(payload: Value)

  /** `data.filter(item => typeof item === 'string')`, mapped to the strings. */
  function StringItems(items: seq<Value>): (r: seq<string>)
    ensures |r| <= |items|
    ensures forall c :: c in r <==> Str(c) in items
  {
    if items == [] then []
    else
      assert items == [items[0]] + items[1..];
      (if items[0].Str? then [items[0].s] else []) + StringItems(items[1..])
  }

  /** The filter works item by item: on a concatenation it is the concatenation
      of the two results, so the strings come out in their original order. */
  lemma {:induction false} StringItemsAppend(a: seq<Value>, b: seq<Value>)
    ensures StringItems(a + b) == StringItems(a) + StringItems(b)
    decreases |a|
  {
    if a == [] {
      assert a + b == b;
    } else {
      var head := if a[0].Str? then [a[0].s] else [];
      assert (a + b)[0] == a[0] && (a + b)[1..] == a[1..] + b;
      assert StringItems(a + b) == head + StringItems(a[1..] + b);
      assert StringItems(a) == head + StringItems(a[1..]);
      StringItemsAppend(a[1..], b);
      assert head + (StringItems(a[1..]) + StringItems(b)) == (head + StringItems(a[1..])) + StringItems(b);
    }
  }

  /** An array made only of strings is passed through unchanged. */
  lemma {:induction false} StringItemsOfStrings(cs: seq<string>)
    ensures StringItems(seq(|cs|, i requires 0 <= i < |cs| => Str(cs[i]))) == cs
    decreases |cs|
  {
    var items := seq(|cs|, i requires 0 <= i < |cs| => Str(cs[i]));
    if cs != [] {
      assert items[1..] == seq(|cs[1..]|, i requires 0 <= i < |cs[1..]| => Str(cs[1..][i]));
      StringItemsOfStrings(cs[1..]);
      assert [cs[0]] + cs[1..] == cs;
    }
  }

  /** The category list the page stores after a fetch: the string entries of
      an array payload; an empty list for any other payload and for a failure. */
  function SanitizeCategories(fetch: CategoryFetch): (r: seq<string>)
    ensures fetch.Failed? ==> r == []
    ensures fetch.Received? && !fetch.payload.Array? ==> r == []
    ensures fetch.Received? && fetch.payload.Array? ==>
              forall c :: c in r <==> Str(c) in fetch.payload.items
    ensures fetch.Received? && fetch.payload.Array? ==> r == StringItems(fetch.payload.items)
  {
    match fetch
    case Failed => []
    case Received(payload) =>
      if payload.Array? then StringItems(payload.items) else []
  }
}
