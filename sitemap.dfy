/** `Parser.parse` of downloader/parser.js: collects the text of the `<loc>` elements of a
    sitemap (the sitemaps.org protocol's `<loc>` element holds a page URL). The SAX
    tokeniser is not modelled: the document enters as the sequence of events its callbacks
    receive. */
module Sitemap {
  import opened Wrappers
  import opened JsString

  /** The callbacks the tokeniser fires: `onopentag`, `ontext` and `onclosetag`. */
  datatype Event = Open(name: string) | Text(text: string) | Close(name: string)

  /** The arguments of `done(err, items)`. */
  datatype Done = Done(err: Option<string>, items: seq<string>)

  /** The `inItem` flag after a run of events: an opening `loc` sets it, a closing `loc`
      clears it, and every other event leaves it as it was. */
  predicate InLoc(events: seq<Event>) {
    if events == [] then false
    else
      var e := events[|events| - 1];
      if e == Open("loc") then true
      else if e == Close("loc") then false
      else InLoc(events[..|events| - 1])
  }

  /** What `ontext` pushes for one text: its trimmed self, when that is not empty and the
      flag is set. */
  function Pushed(inItem: bool, text: string): seq<string> {
    var t := Trim(text);
    if inItem && |t| > 0 then [t] else []
  }

  /** The items after a run of events, in push order. */
  function Collected(events: seq<Event>): seq<string> {
    if events == [] then []
    else
      var init := events[..|events| - 1];
      var e := events[|events| - 1];
      Collected(init) + (if e.Text? then Pushed(InLoc(init), e.text) else [])
  }

  /** The callbacks run over the events in order, then `onend` calls `done` with a null
      error and the items. `openTag` is kept as the source keeps it, and nothing reads it. */
  method Parse(events: seq<Event>) returns (d: Done)
    ensures d.err == None
    ensures d.items == Collected(events)
  {
    var items: seq<string> := [];
    var openTag: Option<string> := None;
    var inItem := false;
    var i := 0;
    while i < |events|
      invariant 0 <= i <= |events|
      invariant inItem == InLoc(events[..i])
      invariant items == Collected(events[..i])
    {
      assert events[..i + 1][..i] == events[..i];
      match events[i] {
        case Open(name) =>
          if name == "loc" {
            inItem := true;
          }
          openTag := Some(name);
        case Text(text) =>
          var t := Trim(text);
          if inItem && |t| > 0 {
            items := items + [t];
          }
        case Close(name) =>
          if name == "loc" {
            inItem := false;
          }
          openTag := None;
      }
      i := i + 1;
    }
    assert events[..i] == events;
    d := Done(None, items);
  }

  // ---------------------------------------------------------------------------
  // The in-`loc` state

  predicate OpensLocAt(events: seq<Event>, j: int) {
    0 <= j < |events| && events[j] == Open("loc")
  }

  /** The `loc` opened at `j` is not closed by any later event. */
  predicate StillOpen(events: seq<Event>, j: int) {
    OpensLocAt(events, j) && forall h :: j < h < |events| ==> events[h] != Close("loc")
  }

  /** The flag is set exactly when some opening `loc` has no closing `loc` after it. */
  lemma {:induction false} InLocMeaning(events: seq<Event>)
    ensures InLoc(events) <==> exists j :: StillOpen(events, j)
  {
    if events != [] {
      var n := |events| - 1;
      var init := events[..n];
      InLocMeaning(init);
      if events[n] == Open("loc") {
        assert StillOpen(events, n);
      } else if events[n] == Close("loc") {
        forall j | 0 <= j < |events|
          ensures !StillOpen(events, j)
        {
        }
      } else {
        forall j
          ensures StillOpen(events, j) <==> StillOpen(init, j)
        {
          if StillOpen(events, j) {
            assert j < n && init[j] == events[j];
            forall h | j < h < |init|
              ensures init[h] != Close("loc")
            {
              assert init[h] == events[h];
            }
          }
          if StillOpen(init, j) {
            assert events[j] == init[j];
            forall h | j < h < |events|
              ensures events[h] != Close("loc")
            {
              if h < n {
                assert events[h] == init[h];
              }
            }
          }
        }
      }
    }
  }

  /** A document with no opening `loc` gives no items. */
  lemma {:induction false} NoLocNoItems(events: seq<Event>)
    requires forall k :: 0 <= k < |events| ==> events[k] != Open("loc")
    ensures !InLoc(events) && Collected(events) == []
  {
    if events != [] {
      var init := events[..|events| - 1];
      assert forall k :: 0 <= k < |init| ==> init[k] == events[k];
      NoLocNoItems(init);
    }
  }

  /** Tags other than `loc` are transparent: removing one opening or closing tag of another
      name changes neither the flag nor the items, so text inside an element nested in
      `loc` is collected. */
  lemma {:induction false} OtherTagIgnored(a: seq<Event>, e: Event, b: seq<Event>)
    requires !e.Text? && e.name != "loc"
    ensures InLoc(a + [e] + b) == InLoc(a + b)
    ensures Collected(a + [e] + b) == Collected(a + b)
    decreases |b|
  {
    var x := a + [e] + b;
    var y := a + b;
    if b == [] {
      assert x[..|x| - 1] == a && x[|x| - 1] == e;
      assert y == a;
    } else {
      var b' := b[..|b| - 1];
      assert x[..|x| - 1] == a + [e] + b' && x[|x| - 1] == b[|b| - 1];
      assert y[..|y| - 1] == a + b' && y[|y| - 1] == b[|b| - 1];
      OtherTagIgnored(a, e, b');
    }
  }

  // ---------------------------------------------------------------------------
  // The items

  /** Every item is trimmed and non-empty: whitespace-only text is dropped. */
  lemma {:induction false} ItemsClean(events: seq<Event>)
    ensures forall x :: x in Collected(events) ==> x != [] && Trimmed(x)
  {
    if events != [] {
      ItemsClean(events[..|events| - 1]);
    }
  }

  /** Items are only ever appended: the items of a prefix of the events begin the items of
      all of them. */
  lemma {:induction false} CollectedGrows(events: seq<Event>, i: nat)
    requires i <= |events|
    ensures Collected(events[..i]) <= Collected(events)
  {
    if i < |events| {
      var init := events[..|events| - 1];
      assert init[..i] == events[..i];
      CollectedGrows(init, i);
    } else {
      assert events[..i] == events;
    }
  }

  /** Every item comes from a text event seen while the flag was set. */
  lemma {:induction false} ItemSource(events: seq<Event>, x: string) returns (k: nat)
    requires x in Collected(events)
    ensures k < |events| && events[k].Text? && InLoc(events[..k])
    ensures x == Trim(events[k].text)
  {
    var n := |events| - 1;
    var init := events[..n];
    if x in Collected(init) {
      k := ItemSource(init, x);
      assert init[..k] == events[..k] && init[k] == events[k];
    } else {
      k := n;
    }
  }

  /** Every text event seen while the flag was set whose trimmed text is not empty gives an
      item, and the items keep the order of their events: its item follows everything the
      earlier events gave. */
  lemma TextCollected(events: seq<Event>, k: nat)
    requires k < |events| && events[k].Text? && InLoc(events[..k])
    requires !AllSpace(events[k].text)
    ensures Collected(events[..k]) + [Trim(events[k].text)] <= Collected(events)
  {
    TrimEmptyIff(events[k].text);
    assert events[..k + 1][..k] == events[..k];
    CollectedGrows(events, k + 1);
  }

  /** Text outside `loc` is dropped. */
  lemma TextOutsideDropped(events: seq<Event>, t: string)
    requires !InLoc(events)
    ensures Collected(events + [Text(t)]) == Collected(events)
  {
    assert (events + [Text(t)])[..|events|] == events;
  }

  /** A URL in a nested element inside `loc` is collected, trimmed. */
  lemma NestedText(n: string, t: string)
    requires n != "loc" && !AllSpace(t)
    ensures Collected([Open("loc"), Open(n), Text(t), Close(n), Close("loc")]) == [Trim(t)]
  {
    TrimEmptyIff(t);
    var e1 := [Open("loc")];
    var e2 := e1 + [Open(n)];
    var e3 := e2 + [Text(t)];
    var e4 := e3 + [Close(n)];
    var e5 := e4 + [Close("loc")];
    assert e1[..0] == [] && e2[..1] == e1 && e3[..2] == e2 && e4[..3] == e3 && e5[..4] == e4;
    assert InLoc(e2) && Collected(e2) == [];
    assert Collected(e3) == [Trim(t)];
    assert Collected(e5) == [Trim(t)];
    assert e5 == [Open("loc"), Open(n), Text(t), Close(n), Close("loc")];
  }
}
