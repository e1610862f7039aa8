/**
 * `useLocationSearch`: the query string of the current location as an
 * insertion-ordered list of name/value pairs, `set` to change one parameter
 * and navigate, and `getLinkWithParam` to build the link that would.
 *
 * Parsing drops the first character, splits on `&`, splits each piece on `=`
 * and records the text between the first and second `=` under the name before
 * the first; a piece without `=` records `undefined`, and a piece with an
 * empty name is skipped. A link is the pathname, `?`, and the pairs rendered
 * `name=value` and joined with `&`.
 */
module LocationSearch {
  import opened Wrappers
  import opened Text

  /** The parameters in insertion order; a `None` value is `undefined`. */
  type Params = seq<(string, Option<string>)>

  /** The names, in order. */
  function Names(ps: Params): (names: seq<string>)
    ensures |names| == |ps|
    ensures forall i :: 0 <= i < |ps| ==> names[i] == ps[i].0
  {
    seq(|ps|, i requires 0 <= i < |ps| => ps[i].0)
  }

  predicate UniqueNames(ps: Params)
  {
    forall i, j :: 0 <= i < j < |ps| ==> ps[i].0 != ps[j].0
  }

  /** `params[name]`: None when the name is absent, `Some(value)` otherwise. */
  function Lookup(ps: Params, name: string): (r: Option<Option<string>>)
    ensures r.None? <==> name !in Names(ps)
    ensures r.Some? ==> exists i :: 0 <= i < |ps| && ps[i] == (name, r.value)
    decreases |ps|
  {
    if |ps| == 0 then None
    else if ps[0].0 == name then Some(ps[0].1)
    else
      var r := Lookup(ps[1..], name);
      assert Names(ps) == [ps[0].0] + Names(ps[1..]);
      r
  }

  /**
   * `params[name] = value`: a present name keeps its position and takes the
   * value; a new name is appended; every other name keeps its value.
   */
  function Put(ps: Params, name: string, value: Option<string>): (r: Params)
    ensures Names(r) == if name in Names(ps) then Names(ps) else Names(ps) + [name]
    decreases |ps|
  {
    if |ps| == 0 then [(name, value)]
    else if ps[0].0 == name then
      var r := [(name, value)] + ps[1..];
      assert Names(r) == Names(ps);
      r
    else
      var rest := Put(ps[1..], name, value);
      var r := [ps[0]] + rest;
      NamesCons(ps[0], ps[1..]);
      NamesCons(ps[0], rest);
      assert [ps[0]] + ps[1..] == ps;
      assert name in Names(ps) <==> name in Names(ps[1..]);
      r
  }

  lemma NamesCons(p: (string, Option<string>), ps: Params)
    ensures Names([p] + ps) == [p.0] + Names(ps)
  {
  }

  /** After `Put`, the name reads the new value and every other name its old one. */
  lemma {:induction false} PutLookup(ps: Params, name: string, value: Option<string>, m: string)
    ensures Lookup(Put(ps, name, value), m) == if m == name then Some(value) else Lookup(ps, m)
    decreases |ps|
  {
    if |ps| > 0 && ps[0].0 != name {
      PutLookup(ps[1..], name, value, m);
      assert ([ps[0]] + Put(ps[1..], name, value))[1..] == Put(ps[1..], name, value);
    } else if |ps| > 0 {
      assert ([(name, value)] + ps[1..])[1..] == ps[1..];
    }
  }

  /** `delete params[name]`: the name disappears; every other pair stays, in order. */
  function Remove(ps: Params, name: string): (r: Params)
    ensures Lookup(r, name).None?
    ensures forall m :: m != name ==> Lookup(r, m) == Lookup(ps, m)
    ensures forall i :: 0 <= i < |r| ==> r[i] in ps
    decreases |ps|
  {
    if |ps| == 0 then []
    else
      var rest := Remove(ps[1..], name);
      if ps[0].0 == name then rest
      else
        var r := [ps[0]] + rest;
        NamesCons(ps[0], rest);
        r
  }

  /** Removing a name keeps the other names unique. */
  lemma {:induction false} RemoveKeepsNamesUnique(ps: Params, name: string)
    requires UniqueNames(ps)
    ensures UniqueNames(Remove(ps, name))
    decreases |ps|
  {
    if |ps| > 0 {
      UniqueTail(ps);
      RemoveKeepsNamesUnique(ps[1..], name);
      if ps[0].0 != name {
        UniqueCons(ps, Remove(ps[1..], name));
      }
    }
  }

  /** Removing an absent name changes nothing. */
  lemma {:induction false} RemoveAbsent(ps: Params, name: string)
    requires name !in Names(ps)
    ensures Remove(ps, name) == ps
    decreases |ps|
  {
    if |ps| > 0 {
      NamesCons(ps[0], ps[1..]);
      ConsTail(ps);
      RemoveAbsent(ps[1..], name);
    }
  }

  lemma ConsTail(ps: Params)
    requires |ps| > 0
    ensures [ps[0]] + ps[1..] == ps
  {
  }

  lemma UniqueTail(ps: Params)
    requires |ps| > 0 && UniqueNames(ps)
    ensures UniqueNames(ps[1..])
  {
    forall i, j | 0 <= i < j < |ps| - 1 ensures ps[1..][i].0 != ps[1..][j].0 {
      assert ps[1..][i] == ps[i + 1] && ps[1..][j] == ps[j + 1];
    }
  }

  /** Names stay unique when the head of `ps` goes before a selection of its tail. */
  lemma UniqueCons(ps: Params, rest: Params)
    requires |ps| > 0 && UniqueNames(ps) && UniqueNames(rest)
    requires forall i :: 0 <= i < |rest| ==> rest[i] in ps[1..]
    ensures UniqueNames([ps[0]] + rest)
  {
    forall j | 0 <= j < |rest| ensures rest[j].0 != ps[0].0 {
      var k :| 0 <= k < |ps[1..]| && ps[1..][k] == rest[j];
      assert ps[k + 1] == rest[j];
    }
  }

  /** `Remove` keeps the order of what it keeps: it works piece by piece. */
  lemma {:induction false} RemoveAppend(a: Params, b: Params, name: string)
    ensures Remove(a + b, name) == Remove(a, name) + Remove(b, name)
    decreases |a|
  {
    if |a| > 0 {
      assert (a + b)[1..] == a[1..] + b;
      RemoveAppend(a[1..], b, name);
    } else {
      assert a + b == b;
    }
  }

  /** `Remove` on one pair drops it exactly when it carries the name. */
  lemma RemoveOne(p: (string, Option<string>), name: string)
    ensures Remove([p], name) == if p.0 == name then [] else [p]
  {
    assert [p][1..] == [];
  }

  /** The rule `set` and `getLinkWithParam` share: an `undefined` value removes the name, any other value sets it. */
  function Assign(ps: Params, name: string, value: Option<string>): (r: Params)
    ensures value.None? ==> Lookup(r, name).None?
    ensures value.Some? ==> Lookup(r, name) == Some(value)
    ensures forall m :: m != name ==> Lookup(r, m) == Lookup(ps, m)
    ensures value.Some? ==> Names(r) == if name in Names(ps) then Names(ps) else Names(ps) + [name]
  {
    if value.None? then Remove(ps, name)
    else
      forall m ensures Lookup(Put(ps, name, value), m) == if m == name then Some(value) else Lookup(ps, m) {
        PutLookup(ps, name, value, m);
      }
      Put(ps, name, value)
  }

  lemma {:induction false} PutKeepsNamesUnique(ps: Params, name: string, value: Option<string>)
    requires UniqueNames(ps)
    ensures UniqueNames(Put(ps, name, value))
  {
    var r := Put(ps, name, value);
    forall i, j | 0 <= i < j < |r| ensures r[i].0 != r[j].0 {
      assert Names(r)[i] == r[i].0 && Names(r)[j] == r[j].0;
      if name !in Names(ps) && j == |ps| {
        assert Names(r)[i] == Names(ps)[i];
      } else {
        assert Names(r)[i] == Names(ps)[i] && Names(r)[j] == Names(ps)[j];
      }
    }
  }

  lemma {:induction false} PutFresh(ps: Params, name: string, value: Option<string>)
    requires name !in Names(ps)
    ensures Put(ps, name, value) == ps + [(name, value)]
    decreases |ps|
  {
    if |ps| > 0 {
      assert Names(ps) == [ps[0].0] + Names(ps[1..]);
      PutFresh(ps[1..], name, value);
      assert ps == [ps[0]] + ps[1..];
    }
  }

  // ---------------------------------------------------------------------------
  // rendering

  /** `${value}` of a parameter: `undefined` renders as the word. */
  function ValueText(v: Option<string>): string
  {
    if v.Some? then v.value else "undefined"
  }

  /** The `name=value` pieces, in order. */
  function Pieces(ps: Params): (pieces: seq<string>)
    ensures |pieces| == |ps|
    ensures forall i :: 0 <= i < |ps| ==> pieces[i] == ps[i].0 + "=" + ValueText(ps[i].1)
  {
    seq(|ps|, i requires 0 <= i < |ps| => ps[i].0 + "=" + ValueText(ps[i].1))
  }

  /** The search text after `?`. */
  function Render(ps: Params): string
  {
    Join(Pieces(ps), '&')
  }

  /** `${pathname}?${...}`: the `?` is there even without parameters. */
  function Link(pathname: string, ps: Params): (r: string)
    ensures |r| > |pathname| && r[..|pathname|] == pathname
    ensures r[|pathname|..] == "?" + Render(ps)
  {
    pathname + "?" + Render(ps)
  }

  // ---------------------------------------------------------------------------
  // parsing

  /** What one `&`-separated piece does to the parameters. */
  function Entry(ps: Params, piece: string): (r: Params)
    ensures UniqueNames(ps) ==> UniqueNames(r)
    ensures NamesNonEmpty(ps) ==> NamesNonEmpty(r)
  {
    var data := Split(piece, '=');
    if data[0] == "" then ps
    else
      var value := if |data| > 1 then Some(data[1]) else None;
      var r := Put(ps, data[0], value);
      assert UniqueNames(ps) ==> UniqueNames(r) by {
        if UniqueNames(ps) { PutKeepsNamesUnique(ps, data[0], value); }
      }
      assert NamesNonEmpty(ps) ==> NamesNonEmpty(r) by {
        if NamesNonEmpty(ps) {
          forall i | 0 <= i < |r| ensures r[i].0 != "" {
            assert Names(r)[i] == r[i].0;
            if i < |ps| { assert Names(ps)[i] == ps[i].0; }
          }
        }
      }
      r
  }

  predicate NamesNonEmpty(ps: Params)
  {
    forall i :: 0 <= i < |ps| ==> ps[i].0 != ""
  }

  /** The pieces applied in order. */
  function Entries(ps: Params, pieces: seq<string>): (r: Params)
    ensures UniqueNames(ps) ==> UniqueNames(r)
    ensures NamesNonEmpty(ps) ==> NamesNonEmpty(r)
  {
    if |pieces| == 0 then ps
    else Entry(Entries(ps, pieces[..|pieces| - 1]), pieces[|pieces| - 1])
  }

  /** `search.slice(1)`. */
  function DropFirst(search: string): string
  {
    if |search| == 0 then "" else search[1..]
  }

  /** The parameters of a location's `search` text. */
  function Parse(search: string): (r: Params)
    ensures UniqueNames(r) && NamesNonEmpty(r)
  {
    Entries([], Split(DropFirst(search), '&'))
  }

  /** A piece names its parameter before the first `=` and gives its value up to the second; the rest is lost. */
  lemma EntryOfPiece(ps: Params, name: string, value: string, rest: seq<string>)
    requires name != "" && '=' !in name && '=' !in value
    requires forall i :: 0 <= i < |rest| ==> '=' !in rest[i]
    ensures Entry(ps, Join([name, value] + rest, '=')) == Put(ps, name, Some(value))
  {
    var parts := [name, value] + rest;
    SplitJoin(parts, '=');
  }

  /** A piece without `=` records `undefined`, and one with an empty name is skipped. */
  lemma EntryWithoutValue(ps: Params, piece: string)
    requires '=' !in piece
    ensures piece != "" ==> Entry(ps, piece) == Put(ps, piece, None)
    ensures piece == "" ==> Entry(ps, piece) == ps
  {
    SplitJoin([piece], '=');
  }

  /** An empty search (or a lone `?`) has no parameters. */
  lemma ParseEmpty(search: string)
    requires |search| <= 1
    ensures Parse(search) == []
  {
    assert DropFirst(search) == "";
    assert Split("", '&') == [""];
    assert [""][..0] == [];
  }

  /** The parameters a link can carry so that parsing its search text gives them back. */
  predicate Token(s: string) { '&' !in s && '=' !in s }

  predicate LinkSafe(ps: Params)
  {
    UniqueNames(ps) &&
    forall i :: 0 <= i < |ps| ==> ps[i].0 != "" && Token(ps[i].0) && ps[i].1.Some? && Token(ps[i].1.value)
  }

  lemma {:induction false} EntriesOfPieces(ps: Params)
    requires LinkSafe(ps)
    ensures Entries([], Pieces(ps)) == ps
    decreases |ps|
  {
    if |ps| > 0 {
      var init := ps[..|ps| - 1];
      LinkSafeSplit(ps);
      EntriesOfPieces(init);
      EntriesLast(ps);
      EntryOfLast(ps);
    }
  }

  /** Parsing the pieces of `ps` applies its last piece after the pieces of the others. */
  lemma EntriesLast(ps: Params)
    requires |ps| > 0
    ensures Entries([], Pieces(ps)) == Entry(Entries([], Pieces(ps[..|ps| - 1])), Pieces(ps)[|ps| - 1])
  {
    assert Pieces(ps)[..|ps| - 1] == Pieces(ps[..|ps| - 1]);
  }

  /** The last piece of link-safe parameters appends its pair to the others. */
  lemma EntryOfLast(ps: Params)
    requires LinkSafe(ps) && |ps| > 0
    ensures Entry(ps[..|ps| - 1], Pieces(ps)[|ps| - 1]) == ps
  {
    LastEntryPuts(ps);
    LinkSafeSplit(ps);
    PutLastRebuilds(ps);
  }

  lemma LastEntryPuts(ps: Params)
    requires LinkSafe(ps) && |ps| > 0
    ensures Entry(ps[..|ps| - 1], Pieces(ps)[|ps| - 1]) == Put(ps[..|ps| - 1], ps[|ps| - 1].0, ps[|ps| - 1].1)
  {
    var (name, value) := ps[|ps| - 1];
    LastPiece(ps);
    EntryOfPiece(ps[..|ps| - 1], name, value.value, []);
  }

  lemma PutLastRebuilds(ps: Params)
    requires |ps| > 0 && ps[|ps| - 1].0 !in Names(ps[..|ps| - 1])
    ensures Put(ps[..|ps| - 1], ps[|ps| - 1].0, ps[|ps| - 1].1) == ps
  {
    var init, last := ps[..|ps| - 1], ps[|ps| - 1];
    PutFresh(init, last.0, last.1);
    assert init + [last] == ps;
  }

  /** The prefix of link-safe parameters is link-safe, and the last name does not occur in it. */
  lemma LinkSafeSplit(ps: Params)
    requires LinkSafe(ps) && |ps| > 0
    ensures LinkSafe(ps[..|ps| - 1])
    ensures ps[|ps| - 1].0 !in Names(ps[..|ps| - 1])
  {
    var init := ps[..|ps| - 1];
    forall i | 0 <= i < |init| ensures Names(init)[i] != ps[|ps| - 1].0 {
      assert init[i] == ps[i];
    }
    forall i, j | 0 <= i < j < |init| ensures init[i].0 != init[j].0 {
      assert init[i] == ps[i] && init[j] == ps[j];
    }
  }

  /** The last piece of link-safe parameters, as `EntryOfPiece` reads it. */
  lemma LastPiece(ps: Params)
    requires LinkSafe(ps) && |ps| > 0
    ensures ps[|ps| - 1].1.Some?
    ensures Pieces(ps)[|ps| - 1] == Join([ps[|ps| - 1].0, ps[|ps| - 1].1.value] + [], '=')
  {
    var (name, value) := ps[|ps| - 1];
    assert [name, value.value] + [] == [name, value.value];
  }

  /** Parsing the search text of a link gives back the parameters it was built from. */
  lemma ParseRender(ps: Params)
    requires LinkSafe(ps)
    ensures Parse("?" + Render(ps)) == ps
  {
    assert DropFirst("?" + Render(ps)) == Render(ps);
    if |ps| == 0 {
      assert Render(ps) == "";
      ParseEmpty("?");
    } else {
      forall i | 0 <= i < |Pieces(ps)| ensures '&' !in Pieces(ps)[i] {
        assert Pieces(ps)[i] == ps[i].0 + "=" + ps[i].1.value;
      }
      SplitJoin(Pieces(ps), '&');
      EntriesOfPieces(ps);
    }
  }

  // ---------------------------------------------------------------------------
  // the hook's object

  class Location {
    const pathname: string
    var params: Params

    /** Parses `search` piece by piece. */
    constructor(search: string, pathname: string)
      ensures this.pathname == pathname
      ensures params == Parse(search)
    {
      this.pathname := pathname;
      var elements := Split(DropFirst(search), '&');
      var parsed: Params := [];
      var i := 0;
      while i < |elements|
        invariant 0 <= i <= |elements|
        invariant parsed == Entries([], elements[..i])
      {
        assert elements[..i + 1][..i] == elements[..i];
        var data := Split(elements[i], '=');
        if data[0] != "" {
          parsed := Put(parsed, data[0], if |data| > 1 then Some(data[1]) else None);
        }
        i := i + 1;
      }
      assert elements[..i] == elements;
      params := parsed;
    }

    /** `set(name, value)`: changes the shared parameters and returns the URL navigated to. */
    method Set(name: string, value: Option<string>) returns (url: string)
      modifies this
      ensures params == Assign(old(params), name, value)
      ensures url == Link(pathname, params)
    {
      params := Assign(params, name, value);
      url := Link(pathname, params);
    }

    /** `getLinkWithParam(name, value)`: the link `set` would navigate to; the parameters stay as they are. */
    method GetLinkWithParam(name: string, value: Option<string>) returns (link: string)
      ensures link == Link(pathname, Assign(params, name, value))
    {
      var temp := Assign(params, name, value);
      link := Link(pathname, temp);
    }
  }

  /**
   * Following a built link (with a pathname free of `?`) yields a location
   * whose parameters are exactly the assigned ones.
   */
  lemma FollowLink(pathname: string, ps: Params, name: string, value: Option<string>)
    requires '?' !in pathname
    requires LinkSafe(Assign(ps, name, value))
    ensures var link := Link(pathname, Assign(ps, name, value));
            link == pathname + "?" + Render(Assign(ps, name, value)) &&
            Parse(link[|pathname|..]) == Assign(ps, name, value)
  {
    var q := Assign(ps, name, value);
    assert Link(pathname, q)[|pathname|..] == "?" + Render(q);
    ParseRender(q);
  }
}
