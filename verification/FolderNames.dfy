/** The folder protocol deletes by folder and kind of object; storage deletes by
    name prefix. This is why the two are the same. */
module FolderNames {
  import opened Decimals
  import opened FolderProtocol
  import opened ObjectNames

  /** A block's id stands for its encoded form, which is the end of its name. */
  function NameOf(obj: Object): string {
    var folder := Itoa(obj.folder);
    match obj.name
    case Merged => MergedObject(folder)
    case Part(index) => PartObject(folder, index)
    case Block(id) => BlocksFolder(folder) + "/" + id
  }

  /** The folder name that a deletion task holds. */
  function TaskFolder(place: Place): string {
    var folder := Itoa(place.folder);
    match place.area
    case Root => folder
    case Parts => PartsFolder(folder)
    case Blocks => BlocksFolder(folder)
  }

  /** What follows the folder's own name. */
  function Inside(name: Name): string {
    match name
    case Merged => "merged"
    case Part(index) => "parts/" + Itoa(index)
    case Block(id) => "blocks/" + id
  }

  lemma FolderIsRoot(folder: nat)
    ensures IsRoot(Itoa(folder))
  {
    DigitsRoundTrip(folder);
  }

  lemma NameIsInside(obj: Object)
    ensures NameOf(obj) == Itoa(obj.folder) + "/" + Inside(obj.name)
  {
  }

  lemma SubfolderPrefix(place: Place)
    ensures FolderPrefix(Itoa(place.folder)) <= FolderPrefix(TaskFolder(place))
  {
    var folder := Itoa(place.folder);
    assert PartsFolder(folder) + "/" == folder + "/" + "parts/";
    assert BlocksFolder(folder) + "/" == folder + "/" + "blocks/";
  }

  lemma CoversInFolder(area: Area, obj: Object)
    ensures FolderPrefix(TaskFolder(Place(obj.folder, area))) <= NameOf(obj) <==> Covers(area, obj.name)
  {
    var folder := Itoa(obj.folder);
    NameIsInside(obj);
    match obj.name
    case Merged => SubfoldersAreApart(folder, 0, "");
    case Part(index) => SubfoldersAreApart(folder, index, "");
    case Block(id) => SubfoldersAreApart(folder, 0, id);
  }

  /** Deleting the folder of a task by prefix removes exactly the objects that
      the task covers. */
  lemma PrefixIsCovers(place: Place, obj: Object)
    ensures FolderPrefix(TaskFolder(place)) <= NameOf(obj) <==> place.folder == obj.folder && Covers(place.area, obj.name)
  {
    if place.folder == obj.folder {
      CoversInFolder(place.area, obj);
    } else if FolderPrefix(TaskFolder(place)) <= NameOf(obj) {
      SubfolderPrefix(place);
      NameIsInside(obj);
      FolderIsRoot(place.folder);
      FolderIsRoot(obj.folder);
      FolderPrefixIsolates(Itoa(place.folder), Itoa(obj.folder), Inside(obj.name));
      ItoaInjective(place.folder, obj.folder);
      assert false;
    }
  }

  /** No two objects have the same name. */
  lemma NameInjective(a: Object, b: Object)
    requires NameOf(a) == NameOf(b)
    ensures a == b
  {
    PrefixIsCovers(Place(a.folder, Root), a);
    PrefixIsCovers(Place(a.folder, Root), b);
    var folder := Itoa(a.folder);
    match a.name
    case Merged =>
      PrefixIsCovers(Place(a.folder, Parts), b);
      PrefixIsCovers(Place(a.folder, Blocks), b);
      PrefixIsCovers(Place(a.folder, Parts), a);
      PrefixIsCovers(Place(a.folder, Blocks), a);
    case Part(index) =>
      PrefixIsCovers(Place(a.folder, Parts), a);
      PrefixIsCovers(Place(a.folder, Parts), b);
      PartObjectInjective(folder, index, b.name.index);
    case Block(id) =>
      PrefixIsCovers(Place(a.folder, Blocks), a);
      PrefixIsCovers(Place(a.folder, Blocks), b);
      SuffixInjective(BlocksFolder(folder) + "/", id, b.name.id);
  }

  lemma SuffixInjective(prefix: string, a: string, b: string)
    requires prefix + a == prefix + b
    ensures a == b
  {
    assert (prefix + a)[|prefix|..] == a;
    assert (prefix + b)[|prefix|..] == b;
  }
}
