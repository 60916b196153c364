/**
 * showNotification: the choice of alert class and icon from a severity tag,
 * and the page body into which notifications are appended and from which
 * their own timer later removes them.
 */
module Notifications {
  import opened Validation

  datatype AlertClass = Danger | Success | Info

  datatype Icon = ExclamationTriangle | CheckCircle | InfoCircle

  /** What a notification says; the wording itself is not modelled. */
  datatype Message = RuleFailed(rule: Rule) | MessageSent

  datatype Notice = Notice(message: Message, alert: AlertClass, icon: Icon)

  /** The icon that goes with each alert class. */
  function IconFor(c: AlertClass): Icon {
    match c
    case Danger => ExclamationTriangle
    case Success => CheckCircle
    case Info => InfoCircle
  }

  /** The alert class for a severity tag: "error" and "success" are special, any other tag is informational. */
  function AlertClassOf(tag: string): (c: AlertClass)
    ensures c == Danger <==> tag == "error"
    ensures c == Success <==> tag == "success"
    ensures c == Info <==> tag != "error" && tag != "success"
  {
    if tag == "error" then Danger else if tag == "success" then Success else Info
  }

  /** The icon for a severity tag, chosen by its own ternary; it always agrees with the alert class. */
  function IconOf(tag: string): (i: Icon)
    ensures i == IconFor(AlertClassOf(tag))
  {
    if tag == "error" then ExclamationTriangle
    else if tag == "success" then CheckCircle
    else InfoCircle
  }

  /** The default tag of showNotification. */
  const DefaultTag := "info"

  /** A notification shown without a tag is informational. */
  lemma DefaultTagIsInfo()
    ensures AlertClassOf(DefaultTag) == Info && IconOf(DefaultTag) == InfoCircle
  {
  }

  predicate NoDuplicates(s: seq<nat>) {
    forall i, j | 0 <= i < j < |s| :: s[i] != s[j]
  }

  /** s with every occurrence of x taken out, the others kept in order. */
  function Detach(s: seq<nat>, x: nat): (r: seq<nat>)
    ensures x !in r
    ensures forall y | y != x :: y in r <==> y in s
    ensures x !in s ==> r == s
    ensures NoDuplicates(s) ==> NoDuplicates(r)
    ensures NoDuplicates(s) && x in s ==> |r| == |s| - 1
  {
    if s == [] then []
    else if s[0] == x then
      var r := Detach(s[1..], x);
      assert NoDuplicates(s) ==> x !in s[1..];
      r
    else
      var r := Detach(s[1..], x);
      assert s == [s[0]] + s[1..];
      assert NoDuplicates(s) ==> s[0] !in r && NoDuplicates(s[1..]);
      [s[0]] + r
  }

  /** Taking one element out leaves the others untouched and in their order. */
  lemma {:induction false} DetachSplit(a: seq<nat>, x: nat, b: seq<nat>)
    requires x !in a && x !in b
    ensures Detach(a + [x] + b, x) == a + b
  {
    if a == [] {
      assert a + [x] + b == [x] + b;
      assert ([x] + b)[1..] == b;
    } else {
      assert (a + [x] + b)[0] == a[0];
      assert (a + [x] + b)[1..] == a[1..] + [x] + b;
      DetachSplit(a[1..], x, b);
      assert a + b == [a[0]] + (a[1..] + b);
    }
  }

  /** The document body: the notifications attached to it, in order of insertion. */
  class Page {
    var body: seq<nat>
    /** Every notification ever created, by id. */
    var created: map<nat, Notice>
    var nextId: nat

    ghost predicate Valid()
      reads this
    {
      && NoDuplicates(body)
      && (forall id | id in body :: id in created)
      && (forall id | id in created :: id < nextId)
    }

    constructor ()
      ensures Valid() && body == [] && created == map[]
    {
      body := [];
      created := map[];
      nextId := 0;
    }

    /** showNotification(message, tag): create a notification and append it to the body. */
    method ShowNotification(message: Message, tag: string) returns (id: nat)
      requires Valid()
      modifies this
      ensures Valid()
      ensures id !in old(created) && id !in old(body)
      ensures created == old(created)[id := Notice(message, AlertClassOf(tag), IconOf(tag))]
      ensures body == old(body) + [id]
    {
      id := nextId;
      assert id !in body;
      nextId := nextId + 1;
      created := created[id := Notice(message, AlertClassOf(tag), IconOf(tag))];
      body := body + [id];
    }

    /**
     * The five-second timer of notification id fires: the element is removed
     * only if it is still attached.
     */
    method ExpireNotification(id: nat)
      requires Valid()
      modifies this
      ensures Valid()
      ensures created == old(created) && nextId == old(nextId)
      ensures body == Detach(old(body), id)
      ensures id in old(body) ==> |body| == |old(body)| - 1
      ensures id !in body
      ensures forall other | other != id :: other in body <==> other in old(body)
    {
      if id in body {
        body := Detach(body, id);
      }
    }
  }

  /** Removal happens at most once: a second expiry of the same notification changes nothing. */
  lemma DetachTwice(s: seq<nat>, x: nat)
    ensures Detach(Detach(s, x), x) == Detach(s, x)
  {
  }

  /** Notifications created one after another expire independently, in either order. */
  lemma {:induction false} DetachCommutes(s: seq<nat>, x: nat, y: nat)
    ensures Detach(Detach(s, x), y) == Detach(Detach(s, y), x)
  {
    if s != [] {
      DetachCommutes(s[1..], x, y);
    }
  }
}
