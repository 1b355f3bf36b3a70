/** Giving every goto the label of its destination, once a function has been read to its
    end and every label statement is known. */
module Gotos {
  import opened Runs

  /** A goto or a label statement; `destination` is the number of an assembly label. */
  class Node {
    const name: string
    var destination: Option<nat>

    constructor (name: string)
      ensures this.name == name && destination == None
    {
      this.name := name;
      destination := None;
    }
  }

  class LabelTable {
    var gotos: seq<Node>
    var labels: map<string, Node>
    var nextLabel: nat

    constructor (nextLabel: nat)
      ensures gotos == [] && labels == map[] && this.nextLabel == nextLabel
    {
      gotos, labels := [], map[];
      this.nextLabel := nextLabel;
    }

    /** Label statements are where their names are looked up, and are not gotos. */
    ghost predicate Valid()
      reads this
    {
      (forall l :: l in labels ==> labels[l] !in gotos) &&
      (forall l, m :: l in labels && m in labels && l != m ==> labels[l] != labels[m])
    }

    /** parse_label. */
    method AddLabel(name: string) returns (ok: bool)
      requires Valid()
      modifies this
      ensures Valid() && gotos == old(gotos) && nextLabel == old(nextLabel)
      ensures ok == (name !in old(labels))
      ensures if ok then labels.Keys == old(labels).Keys + {name} && fresh(labels[name]) && labels[name].destination == None else labels == old(labels)
      ensures forall l :: l in old(labels) ==> l in labels && labels[l] == old(labels)[l]
    {
      ok := name !in labels;
      if ok {
        var node := new Node(name);
        labels := labels[name := node];
      }
    }

    /** parse_statement_goto. */
    method AddGoto(name: string) returns (node: Node)
      requires Valid()
      modifies this
      ensures Valid() && labels == old(labels) && nextLabel == old(nextLabel)
      ensures fresh(node) && node.name == name && node.destination == None && gotos == old(gotos) + [node]
    {
      node := new Node(name);
      gotos := gotos + [node];
    }

    /** ast_label. */
    method FreshLabel() returns (l: nat)
      modifies this`nextLabel
      ensures l == old(nextLabel) && nextLabel == old(nextLabel) + 1
    {
      l := nextLabel;
      nextLabel := nextLabel + 1;
    }

    /** Labels that are used have different numbers, all taken from the counter. */
    ghost predicate Numbered(from: nat)
      reads this, labels.Values
    {
      (forall l :: l in labels && labels[l].destination.Some? ==> from <= labels[l].destination.value < nextLabel) &&
      forall l, m :: l in labels && m in labels && l != m && labels[l].destination.Some? ==> labels[l].destination != labels[m].destination
    }

    /** The first n gotos go to their labels. */
    ghost predicate Filled(n: nat)
      requires n <= |gotos|
      reads this, gotos, labels.Values
    {
      forall i :: 0 <= i < n ==>
        gotos[i].name in labels && labels[gotos[i].name].destination.Some? && gotos[i].destination == labels[gotos[i].name].destination
    }

    /** parse_label_backfill: it succeeds exactly when every name is a label, and then every
        goto has its label's number, and two gotos have the same if and only if they name
        the same label. */
    method Backfill() returns (ok: bool)
      requires Valid() && forall l :: l in labels ==> labels[l].destination == None
      modifies this`nextLabel, gotos, labels.Values
      ensures ok == forall i :: 0 <= i < |gotos| ==> gotos[i].name in labels
      ensures ok ==> Filled(|gotos|) && Numbered(old(nextLabel)) && SameExactly()
    {
      var i := 0;
      while i < |gotos|
        invariant i <= |gotos| && Numbered(old(nextLabel)) && Filled(i)
        invariant nextLabel >= old(nextLabel)
      {
        if gotos[i].name !in labels {
          return false;
        }
        Resolve(i, old(nextLabel));
        i := i + 1;
      }
      ok := true;
      SameLabels(old(nextLabel));
    }

    /** One goto: its label gets a number if it has none yet. */
    method Resolve(i: nat, ghost from: nat)
      requires Valid() && i < |gotos| && gotos[i].name in labels && Numbered(from) && Filled(i) && from <= nextLabel
      modifies this`nextLabel, gotos, labels.Values
      ensures Numbered(from) && Filled(i + 1) && nextLabel >= old(nextLabel)
    {
      var source := gotos[i];
      var destination := labels[source.name];
      if destination.destination.None? {
        var l := FreshLabel();
        destination.destination := Some(l);
      }
      source.destination := destination.destination;
    }

    lemma SameLabels(from: nat)
      requires Filled(|gotos|) && Numbered(from)
      ensures SameExactly()
    {
    }

    ghost predicate SameExactly()
      reads this, gotos
    {
      forall i, j :: 0 <= i < |gotos| && 0 <= j < |gotos| ==>
        (gotos[i].destination == gotos[j].destination <==> gotos[i].name == gotos[j].name)
    }
  }
}
