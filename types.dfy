/** The registry that guesses the type of a newly created page from its path
    (infogami/utils/types.py): path patterns in registration order, each with a type name.
    Regular-expression search is not part of this model: whether a pattern is found in a
    path is a parameter. */
module TypeGuess {
  import opened Wrappers
  import Storage

  const DefaultType: string := "/type/page"

  /** The position of the first pattern found in the path, if any. */
  function FirstMatch(patterns: seq<string>, path: string, search: (string, string) -> bool): (r: Option<nat>)
    ensures r.None? <==> forall j :: 0 <= j < |patterns| ==> !search(patterns[j], path)
    ensures r.Some? ==>
      r.value < |patterns| && search(patterns[r.value], path) && forall j :: 0 <= j < r.value ==> !search(patterns[j], path)
  {
    if patterns == [] then None
    else if search(patterns[0], path) then Some(0)
    else
      match FirstMatch(patterns[1..], path, search)
      case None => None
      case Some(i) =>
        assert forall j :: 1 <= j <= i ==> patterns[j] == patterns[1..][j - 1];
        Some(i + 1)
  }

  /** `type_patterns`. */
  class Registry {
    const patterns: Storage.OrderedDict<string, string>

    ghost predicate Valid()
      reads this, patterns
    {
      patterns.Valid()
    }

    constructor ()
      ensures Valid() && fresh(patterns) && patterns.keys == [] && patterns.data == map[]
    {
      patterns := new Storage.OrderedDict();
    }

    /** `register_type(pattern, typename)`: a new pattern goes last; registering a pattern
        again changes its type and keeps its place. */
    method RegisterType(pattern: string, typename: string)
      requires Valid()
      modifies patterns
      ensures Valid()
      ensures patterns.data == old(patterns.data)[pattern := typename]
      ensures patterns.keys == if pattern in old(patterns.data) then old(patterns.keys) else old(patterns.keys) + [pattern]
    {
      patterns.SetItem(pattern, typename);
    }

    /** `guess_type(path)`: the type of the first pattern, in registration order, found in
        the path; "/type/page" when none is. */
    method GuessType(path: string, search: (string, string) -> bool) returns (t: string)
      requires Valid()
      ensures match FirstMatch(patterns.keys, path, search)
        case None => t == DefaultType
        case Some(i) => t == patterns.data[patterns.keys[i]]
    {
      var keys := patterns.Keys();
      for i := 0 to |keys|
        invariant forall j :: 0 <= j < i ==> !search(keys[j], path)
      {
        if search(keys[i], path) {
          assert keys[i] in patterns.data;
          return patterns.data[keys[i]];
        }
      }
      t := DefaultType;
    }
  }

  /** With overlapping patterns, the one registered first wins, however specific the later
      one is. */
  method EarlierWins(path: string, search: (string, string) -> bool, general: string, specific: string)
      returns (t: string)
    requires general != specific && search(general, path) && search(specific, path)
    ensures t == "/type/general"
  {
    var r := new Registry();
    r.RegisterType(general, "/type/general");
    r.RegisterType(specific, "/type/specific");
    assert r.patterns.keys == [general, specific];
    t := r.GuessType(path, search);
  }

  /** Registering a pattern again with a new type keeps its priority: a path it wins still
      goes to it, now with the new type. */
  method ReregisterKeepsPlace(path: string, search: (string, string) -> bool, first: string, second: string)
      returns (t: string)
    requires first != second && search(first, path) && search(second, path)
    ensures t == "/type/renamed"
  {
    var r := new Registry();
    r.RegisterType(first, "/type/a");
    assert r.patterns.keys == [first] && first in r.patterns.data;
    r.RegisterType(second, "/type/b");
    assert r.patterns.keys == [first, second] && first in r.patterns.data;
    r.RegisterType(first, "/type/renamed");
    assert r.patterns.keys == [first, second] && r.patterns.data[first] == "/type/renamed";
    assert FirstMatch(r.patterns.keys, path, search) == Some(0);
    t := r.GuessType(path, search);
  }
}
