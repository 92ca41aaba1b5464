/**
  ModifyEach: applies a modification to every element of a list, in place.
  The list is an array (its length never changes); `Mapped` is the value the
  array holds afterwards.
 */
module ListExtensions {

  /** The list with `modificator` applied to every element. */
  function Mapped<T>(elements: seq<T>, modificator: T -> T): (r: seq<T>)
    ensures |r| == |elements|
    ensures forall i :: 0 <= i < |elements| ==> r[i] == modificator(elements[i])
  {
    seq(|elements|, i requires 0 <= i < |elements| => modificator(elements[i]))
  }

  /** Each element is read once and overwritten with its modification; no other index is touched. */
  method ModifyEach<T>(elements: array<T>, modificator: T -> T)
    modifies elements
    ensures elements[..] == Mapped(old(elements[..]), modificator)
  {
    for index := 0 to elements.Length
      invariant elements[..index] == Mapped(old(elements[..index]), modificator)
      invariant elements[index..] == old(elements[index..])
    {
      var element := elements[index];
      assert element == old(elements[..])[index] by {
        assert elements[index..][0] == old(elements[index..])[0];
      }
      elements[index] := modificator(element);
      assert elements[..index + 1] == elements[..index] + [elements[index]];
      assert old(elements[..index + 1]) == old(elements[..index]) + [old(elements[index])];
    }
    assert elements[..] == elements[..elements.Length];
    assert old(elements[..]) == old(elements[..elements.Length]);
  }

  /** Modifying with the identity leaves the list as it was. */
  lemma MappedIdentity<T>(elements: seq<T>)
    ensures Mapped(elements, x => x) == elements
  {
  }

  /** Two passes are one pass with the composed modification. */
  lemma MappedTwice<T>(elements: seq<T>, first: T -> T, second: T -> T)
    ensures Mapped(Mapped(elements, first), second) == Mapped(elements, x => second(first(x)))
  {
  }

  /** Each element is modified on its own: mapping distributes over concatenation. */
  lemma MappedAppend<T>(a: seq<T>, b: seq<T>, modificator: T -> T)
    ensures Mapped(a + b, modificator) == Mapped(a, modificator) + Mapped(b, modificator)
  {
  }

  /** Appending " is sweet" to `Sugus` and `Caramel`. */
  lemma MappedExample()
    ensures Mapped(["Sugus", "Caramel"], (element: string) => element + " is sweet")
         == ["Sugus is sweet", "Caramel is sweet"]
  {
    assert "Sugus" + " is sweet" == "Sugus is sweet";
    assert "Caramel" + " is sweet" == "Caramel is sweet";
  }
}
