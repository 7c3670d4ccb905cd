/** Names of the objects of one cache folder (internal/cache/service.go and
    internal/storage/inventory.go). */
module ObjectNames {
  import opened Decimals

  function PartsFolder(folder: string): string {
    folder + "/parts"
  }

  function PartObject(folder: string, part: nat): string {
    PartsFolder(folder) + "/" + Itoa(part)
  }

  function BlocksFolder(folder: string): string {
    folder + "/blocks"
  }

  function MergedObject(folder: string): string {
    folder + "/merged"
  }

  /** The prefix DeleteFolder deletes. */
  function FolderPrefix(name: string): string {
    name + "/"
  }

  predicate IsRoot(folder: string) {
    folder != "" && '/' !in folder
  }

  lemma PartObjectInjective(folder: string, i: nat, j: nat)
    requires PartObject(folder, i) == PartObject(folder, j)
    ensures i == j
  {
    var k := |folder| + |"/parts/"|;
    assert PartObject(folder, i)[k..] == Itoa(i) && PartObject(folder, j)[k..] == Itoa(j);
    ItoaInjective(i, j);
  }

  /** Deleting one root folder touches no object of another one. */
  lemma FolderPrefixIsolates(folder: string, other: string, rest: string)
    requires IsRoot(folder) && IsRoot(other)
    ensures FolderPrefix(folder) <= other + "/" + rest <==> folder == other
  {
    var p, name := FolderPrefix(folder), other + "/" + rest;
    assert forall i :: 0 <= i < |folder| ==> folder[i] != '/';
    assert forall i :: 0 <= i < |other| ==> other[i] != '/';
    assert name[|other|] == '/' && p[|folder|] == '/';
    assert |folder| < |other| ==> name[|folder|] == other[|folder|];
    assert |other| < |folder| ==> p[|other|] == folder[|other|];
    if p <= name {
      assert name[|folder|] == '/';
      assert folder == p[..|folder|] == name[..|folder|] == other;
    }
  }

  /** Within a folder, deleting the parts or the blocks leaves the rest alone. */
  lemma SubfoldersAreApart(folder: string, part: nat, block: string)
    ensures FolderPrefix(PartsFolder(folder)) <= PartObject(folder, part)
    ensures !(FolderPrefix(BlocksFolder(folder)) <= PartObject(folder, part))
    ensures !(FolderPrefix(PartsFolder(folder)) <= MergedObject(folder))
    ensures !(FolderPrefix(BlocksFolder(folder)) <= MergedObject(folder))
    ensures !(FolderPrefix(PartsFolder(folder)) <= BlocksFolder(folder) + "/" + block)
  {
    var n := |folder|;
    assert PartObject(folder, part)[n + 1] == 'p' && MergedObject(folder)[n + 1] == 'm';
    assert FolderPrefix(PartsFolder(folder))[n + 1] == 'p' && FolderPrefix(BlocksFolder(folder))[n + 1] == 'b';
    assert (BlocksFolder(folder) + "/" + block)[n + 1] == 'b';
  }
}
