/** The one-time repair pass: what a `validate` reply says, what a visit to a collection makes of
    it, and when a pass counts as complete. */
module Repair {
  import opened Options

  // ---- replies

  datatype Bson = Bool(value: bool) | Str(text: string) | Array(items: seq<Bson>) | Other(tag: nat)

  type Reply = map<string, Bson>

  const VALIDATION_THREW := "exception during collection validation"

  predicate Contains(text: string, part: string) {
    part <= text || (text != [] && Contains(text[1..], part))
  }

  /** A text contains another exactly when it is something, then that, then something. */
  lemma {:induction false} ContainsMeans(text: string, part: string)
    ensures Contains(text, part) <==> exists before, after :: text == before + part + after
    decreases |text|
  {
    if part <= text {
      assert text == [] + part + text[|part|..];
    }
    if text != [] {
      ContainsMeans(text[1..], part);
      if Contains(text[1..], part) {
        var before, after :| text[1..] == before + part + after;
        assert text == ([text[0]] + before) + part + after;
      }
    }
    forall before, after | text == before + part + after
      ensures Contains(text, part)
    {
      if before != [] {
        assert text[1..] == before[1..] + part + after;
      }
    }
  }

  /** The texts in an array field, and none if it is no array. */
  function Strings(reply: Reply, key: string): seq<string> {
    if key in reply && reply[key].Array? then Texts(reply[key].items) else []
  }

  function Texts(items: seq<Bson>): seq<string> {
    if items == [] then [] else (if items[0].Str? then [items[0].text] else []) + Texts(items[1..])
  }

  function ArrayLength(reply: Reply, key: string): nat {
    if key in reply && reply[key].Array? then |reply[key].items| else 0
  }

  datatype Health = Sound | Damaged(errors: seq<string>, missingIndexEntries: nat) | Inconclusive(reason: string)

  function FirstContaining(texts: seq<string>, part: string): Option<string> {
    if texts == [] then None
    else if Contains(texts[0], part) then Some(texts[0])
    else FirstContaining(texts[1..], part)
  }

  function ParseHealth(reply: Reply): Health {
    var threw := FirstContaining(Strings(reply, "warnings"), VALIDATION_THREW);
    if threw.Some? then Inconclusive(threw.value)
    else
      var errors := Strings(reply, "errors");
      var missing := ArrayLength(reply, "missingIndexEntries");
      if "valid" in reply && reply["valid"] == Bool(true) && errors == [] && missing == 0 then Sound
      else Damaged(errors, missing)
  }

  lemma {:induction false} TextsHold(items: seq<Bson>, text: string)
    ensures text in Texts(items) <==> Str(text) in items
  {
    if items != [] {
      TextsHold(items[1..], text);
      assert items == [items[0]] + items[1..];
    }
  }

  lemma {:induction false} FirstFound(texts: seq<string>, part: string)
    ensures FirstContaining(texts, part).Some? <==> exists text | text in texts :: Contains(text, part)
    ensures var first := FirstContaining(texts, part);
            first.Some? ==> first.value in texts && Contains(first.value, part)
  {
    hide Contains;
    if texts != [] {
      FirstFound(texts[1..], part);
      assert texts == [texts[0]] + texts[1..];
      assert texts[0] in texts;
    }
  }

  /** What a reply has to hold for a warning of the scan's own failure to be in it. */
  predicate Threw(reply: Reply) {
    && "warnings" in reply && reply["warnings"].Array?
    && exists item | item in reply["warnings"].items :: item.Str? && Contains(item.text, VALIDATION_THREW)
  }

  /** A scan that threw is never taken for a verdict, whatever else its reply says; and sound is
      said only of a reply that says so and lists nothing against it. */
  lemma {:induction false} HealthMeans(reply: Reply)
    ensures ParseHealth(reply).Inconclusive? <==> Threw(reply)
    ensures ParseHealth(reply).Sound? <==>
            && !Threw(reply)
            && "valid" in reply && reply["valid"] == Bool(true)
            && ("errors" in reply && reply["errors"].Array? ==> forall text :: Str(text) !in reply["errors"].items)
            && ("missingIndexEntries" in reply && reply["missingIndexEntries"].Array? ==>
                  reply["missingIndexEntries"].items == [])
  {
    var warnings, errors := Strings(reply, "warnings"), Strings(reply, "errors");
    FirstFound(warnings, VALIDATION_THREW);
    hide Contains, FirstContaining;
    if "warnings" in reply && reply["warnings"].Array? {
      forall text
        ensures text in warnings <==> Str(text) in reply["warnings"].items
      {
        TextsHold(reply["warnings"].items, text);
      }
    }
    if "errors" in reply && reply["errors"].Array? {
      forall text
        ensures text in errors <==> Str(text) in reply["errors"].items
      {
        TextsHold(reply["errors"].items, text);
      }
      assert errors == [] <==> forall text :: text !in errors by {
        if errors != [] {
          assert errors[0] in errors;
        }
      }
    }
  }

  // ---- visits

  datatype Answer = Failed | Replied(reply: Reply)

  /** A collection and what the engine answered to being asked about it: a check, and if that found
      damage a repair and a check again. Answers not asked for are `Failed`. */
  datatype Visit = Visit(namespace: nat, first: Answer, repair: Answer, last: Answer) {

    /** The pass learned what state the collection is in: sound, or damaged, repaired and checked
        again to the end. */
    predicate Conclusive() {
      || (first.Replied? && ParseHealth(first.reply).Sound?)
      || (&& first.Replied? && ParseHealth(first.reply).Damaged?
          && repair.Replied? && last.Replied? && !Threw(last.reply))
    }
  }

  /** What the engine answers to each `validate` of a pass; after those it fails. */
  class Engine {
    var answers: seq<Answer>

    function Next(i: nat): Answer
      reads this
    {
      if i < |answers| then answers[i] else Failed
    }

    function After(n: nat): seq<Answer>
      reads this
    {
      if n <= |answers| then answers[n..] else []
    }

    method Validate() returns (answer: Answer)
      modifies this
      ensures answer == old(Next(0)) && answers == old(After(1))
    {
      answer := Next(0);
      answers := After(1);
    }

    /** Whether the visit came to a verdict. */
    method VisitOne(namespace: nat) returns (ok: bool, ghost visit: Visit)
      modifies this
      ensures visit.namespace == namespace && ok == visit.Conclusive()
      ensures visit.first == old(Next(0))
      ensures visit.first.Replied? && ParseHealth(visit.first.reply).Damaged? ==>
                && visit.repair == old(Next(1))
                && (visit.repair.Replied? ==> visit.last == old(Next(2)))
    {
      var first := Validate();
      visit := Visit(namespace, first, Failed, Failed);
      if first.Failed? {
        return false, visit;
      }
      match ParseHealth(first.reply) {
        case Sound => return true, visit;
        case Inconclusive(_) => return false, visit;
        case Damaged(_, _) =>
      }
      assert Next(0) == old(Next(1));
      var repair := Validate();
      visit := visit.(repair := repair);
      if repair.Failed? {
        return false, visit;
      }
      assert Next(0) == old(Next(2));
      var last := Validate();
      visit := visit.(last := last);
      if last.Failed? {
        return false, visit;
      }
      HealthMeans(last.reply);
      match ParseHealth(last.reply) {
        case Inconclusive(_) => return false, visit;
        case _ => return true, visit;
      }
    }

    /** Every collection is visited, whatever became of the ones before; the pass is complete only
        if every visit came to a verdict. */
    method Sweep(namespaces: seq<nat>) returns (complete: bool, ghost visits: seq<Visit>)
      modifies this
      ensures |visits| == |namespaces| && forall i | 0 <= i < |visits| :: visits[i].namespace == namespaces[i]
      ensures complete <==> forall i | 0 <= i < |visits| :: visits[i].Conclusive()
    {
      complete, visits := true, [];
      for i := 0 to |namespaces|
        invariant |visits| == i && forall j | 0 <= j < i :: visits[j].namespace == namespaces[j]
        invariant complete <==> forall j | 0 <= j < i :: visits[j].Conclusive()
      {
        var ok, visit := VisitOne(namespaces[i]);
        visits := visits + [visit];
        if !ok {
          complete := false;
        }
      }
    }
  }

  datatype Catalog = Catalog(databases: nat, namespaces: seq<nat>) {

    /** Databases and no collection in any of them: what an engine too old to look reports. */
    predicate Suspect() { databases > 0 && namespaces == [] }
  }
}
