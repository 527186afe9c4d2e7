/** Reserving an ADR id in a corpus nobody else writes to. */
module Corpus {
  import opened Text
  import opened Adr
  import Slugs

  datatype Refusal = NoTitle | NoTree | NotLocked | NotListed | NoSlug | WouldOverwrite(path: string) | NotCreated | NotWritten(path: string)

  datatype Outcome = Reservation(number: nat, path: string) | Refused(why: Refusal)

  /** How the steps that can fail went; `part` is what reached the file when writing or closing it fails. */
  datatype Answers = Answers(isTree: bool, locked: bool, listed: bool, created: bool, written: bool, part: string)

  class Directory {
    const tree: Tree
    var files: map<string, string>
    var directories: set<string>

    ghost predicate Valid()
      reads this
    {
      IsTree(tree) && files.Keys !! directories
    }

    /** Tree.Reserve. `entries` is the listing os.ReadDir returns. */
    method Reserve(title: string, dryRun: bool, body: string, answers: Answers, entries: seq<DirEntry>)
      returns (r: Outcome)
      requires Valid() && FileNames(entries) == files.Keys
      modifies this`files
      ensures Valid()
      // How it ends and which files there are then, for every pattern of answers.
      ensures forall highest: nat :: IsHighest(old(files.Keys), highest) ==>
                (r, files) == Ends(tree, old(files), directories, title, dryRun, body, answers, highest)
      ensures r.Reservation? ==> Trim(title) != "" && Slugs.Slugify(title) != ""
      ensures r.Reservation? ==> r.number >= 1 && IsHighest(old(files.Keys), r.number - 1)
      ensures r.Reservation? ==> r.path == FileName(tree, r.number, Slugs.Slugify(title))
      ensures r.Reservation? && !dryRun ==> r.path !in old(files.Keys) + directories && files == old(files)[r.path := body]
      ensures dryRun ==> files == old(files)
      ensures r.Refused? && !r.why.NotWritten? ==> files == old(files)
      ensures r.Refused? && r.why.NotWritten? ==>
                r.why.path !in old(files.Keys) + directories && files == old(files)[r.why.path := answers.part]
      ensures r.Refused? && (r.why.NotWritten? || r.why.WouldOverwrite?) ==>
                exists n: nat :: IsHighest(old(files.Keys), n) && r.why.path == FileName(tree, n + 1, Slugs.Slugify(title))
      ensures r == Refused(NoTitle) <==> Trim(title) == ""
      ensures r == Refused(NoSlug) ==> Slugs.Slugify(title) == ""
      ensures r.Refused? && r.why.WouldOverwrite? ==> !dryRun && r.why.path in files.Keys + directories
      ensures r.Refused? && r.why.WouldOverwrite? && r.why.path in files ==> IsHighest(files.Keys, 9999)
    {
      hide Trim, Slugs.Slugify, FileName, ParseNumber, IsHighest;
      if Trim(title) == "" {
        return Refused(NoTitle);
      }
      if !answers.isTree {
        return Refused(NoTree);
      }
      if !answers.locked {
        return Refused(NotLocked);
      }
      if !answers.listed {
        return Refused(NotListed);
      }
      var maxSeen := Max(entries);
      assert forall highest: nat :: IsHighest(files.Keys, highest) ==> highest == maxSeen by {
        forall highest: nat | IsHighest(files.Keys, highest) ensures highest == maxSeen { HighestIsUnique(files.Keys, highest, maxSeen); }
      }
      var next := maxSeen + 1;
      var slug := Slugs.Slugify(title);
      if slug == "" {
        return Refused(NoSlug);
      }
      var path := FileName(tree, next, slug);
      if dryRun {
        return Reservation(next, path);
      }
      if path in files || path in directories {
        if path in files {
          PresentMeansFull(tree, files.Keys, maxSeen, slug);
        }
        return Refused(WouldOverwrite(path));
      }
      if !answers.created {
        return Refused(NotCreated);
      }
      if !answers.written {
        files := files[path := answers.part];
        return Refused(NotWritten(path));
      }
      files := files[path := body];
      return Reservation(next, path);
    }
  }

  /** A reservation over files whose highest number is this. */
  function Ends(t: Tree, files: map<string, string>, directories: set<string>, title: string, dryRun: bool, body: string,
                answers: Answers, highest: nat): (Outcome, map<string, string>) {
    var slug := Slugs.Slugify(title);
    var path := FileName(t, highest + 1, slug);
    if Trim(title) == "" then (Refused(NoTitle), files)
    else if !answers.isTree then (Refused(NoTree), files)
    else if !answers.locked then (Refused(NotLocked), files)
    else if !answers.listed then (Refused(NotListed), files)
    else if slug == "" then (Refused(NoSlug), files)
    else if dryRun then (Reservation(highest + 1, path), files)
    else if path in files || path in directories then (Refused(WouldOverwrite(path)), files)
    else if !answers.created then (Refused(NotCreated), files)
    else if !answers.written then (Refused(NotWritten(path)), files[path := answers.part])
    else (Reservation(highest + 1, path), files[path := body])
  }

  /**
   * When a number is given out: exactly if the title has a slug, the tree could be locked and listed, and, unless it is a
   * dry run, the file could be created and written under a name that nobody has.
   */
  lemma ReservesExactly(t: Tree, files: map<string, string>, directories: set<string>, title: string, dryRun: bool, body: string,
                        answers: Answers, highest: nat)
    ensures var slug := Slugs.Slugify(title); var path := FileName(t, highest + 1, slug);
      Ends(t, files, directories, title, dryRun, body, answers, highest).0 == Reservation(highest + 1, path) <==>
        && Trim(title) != "" && slug != "" && answers.isTree && answers.locked && answers.listed
        && (dryRun || (path !in files.Keys + directories && answers.created && answers.written))
  {
    hide Trim, Slugs.Slugify, FileName;
  }

  /** The name of the next number is taken only once 9999 is. */
  lemma PresentMeansFull(t: Tree, names: set<string>, highest: nat, slug: string)
    requires IsTree(t) && IsHighest(names, highest) && FileName(t, highest + 1, slug) in names
    ensures highest == 9999
  {
    NumberSurvivesFileName(t, highest + 1, slug);
    HighestIsUnique(names, highest, highest);
    hide FileName, ParseNumber;
  }

  /** A reservation raises the highest number by one, until 9999; from then on it stays. */
  lemma NextAfter(t: Tree, names: set<string>, highest: nat, slug: string)
    requires IsTree(t) && IsHighest(names, highest)
    ensures IsHighest(names + {FileName(t, highest + 1, slug)}, if highest < 9999 then highest + 1 else highest)
  {
    NumberSurvivesFileName(t, highest + 1, slug);
    HighestIsUnique(names, highest, highest);
    hide FileName, ParseNumber;
    var name := FileName(t, highest + 1, slug);
    assert name in names + {name};
  }
}
