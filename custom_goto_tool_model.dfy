/**
  The user defined goto tools: a menu title, a command line template and the
  run-as-administrator flag, and the list the settings keep them in.
  Both are mutable objects; Clone makes deep copies and Equals compares values.
 */
module Models {

  /** What a goto tool holds, as a value. */
  datatype ToolValue = ToolValue(menuTitle: string, commandLine: string, asAdmin: bool)

  /** One user defined goto tool. */
  class CustomGotoToolModel {
    var MenuTitle: string
    var CommandLine: string
    var AsAdmin: bool

    /** A new tool has empty strings and runs without elevation. */
    constructor ()
      ensures MenuTitle == [] && CommandLine == [] && !AsAdmin
    {
      MenuTitle := [];
      CommandLine := [];
      AsAdmin := false;
    }

    /** The three fields as one value. */
    function Value(): ToolValue
      reads this
    {
      ToolValue(MenuTitle, CommandLine, AsAdmin)
    }

    /** Value equality: false for null, true for the object itself, and otherwise true exactly
        when the two tools hold the same title, command line and admin flag. */
    function Equals(other: CustomGotoToolModel?): (r: bool)
      reads this, other
      ensures other == null ==> !r
      ensures other == this ==> r
      ensures r <==> other != null && Value() == other.Value()
    {
      other != null
      && MenuTitle == other.MenuTitle
      && CommandLine == other.CommandLine
      && AsAdmin == other.AsAdmin
    }

    /** A deep copy: a new object with the same field values. */
    method Clone() returns (result: CustomGotoToolModel)
      ensures fresh(result)
      ensures result.MenuTitle == MenuTitle && result.CommandLine == CommandLine && result.AsAdmin == AsAdmin
      ensures Equals(result) && result.Equals(this)
    {
      result := new CustomGotoToolModel();
      result.MenuTitle := MenuTitle;
      result.CommandLine := CommandLine;
      result.AsAdmin := AsAdmin;
    }
  }

  /** Equals is an equivalence on tools: reflexive, symmetric and transitive. */
  lemma EqualsIsEquivalence(a: CustomGotoToolModel, b: CustomGotoToolModel, c: CustomGotoToolModel)
    ensures a.Equals(a)
    ensures a.Equals(b) <==> b.Equals(a)
    ensures a.Equals(b) && b.Equals(c) ==> a.Equals(c)
  {
  }

  /** The list of user defined goto tools. */
  class CustomGotoToolModelList {
    var items: seq<CustomGotoToolModel>

    constructor ()
      ensures items == []
    {
      items := [];
    }

    /** The tool objects the list refers to. */
    function Elements(): set<CustomGotoToolModel>
      reads this
    {
      set k | 0 <= k < |items| :: items[k]
    }

    /** Both lists have the same length and equal tools at every index. */
    predicate SameItems(other: CustomGotoToolModelList)
      reads this, other, Elements(), other.Elements()
    {
      |items| == |other.items|
      && forall k :: 0 <= k < |items| ==> items[k].Equals(other.items[k])
    }

    /** Value equality of two lists, accumulated index by index. */
    method Equals(other: CustomGotoToolModelList?) returns (result: bool)
      ensures result <==> other != null && SameItems(other)
    {
      if other == null {
        return false;
      }
      result := |items| == |other.items|;
      if result {
        for index := 0 to |items|
          invariant result <==> forall k :: 0 <= k < index ==> items[k].Equals(other.items[k])
        {
          result := result && items[index].Equals(other.items[index]);
        }
      }
    }

    /** A deep copy: a new list of new tools, equal to this list item by item. */
    method Clone() returns (result: CustomGotoToolModelList)
      ensures fresh(result)
      ensures |result.items| == |items|
      ensures forall k :: 0 <= k < |items| ==> fresh(result.items[k])
      ensures SameItems(result) && result.SameItems(this)
    {
      result := new CustomGotoToolModelList();
      for index := 0 to |items|
        invariant fresh(result)
        invariant |result.items| == index
        invariant forall k :: 0 <= k < index ==> fresh(result.items[k])
        invariant forall k :: 0 <= k < index ==> items[k].Equals(result.items[k]) && result.items[k].Equals(items[k])
      {
        var copy := items[index].Clone();
        result.items := result.items + [copy];
      }
    }
  }
}
