/** The message composer: the text being typed, the files attached to the
    next message, and the guard that decides when a message may be sent. */
module Composer {
  import opened Text

  /** An attached file: its name and its size in bytes. */
  datatype File = File(name: string, size: int)

  /** What the composer hands to its `onSend` callback. */
  datatype Outgoing = Outgoing(text: string, files: seq<File>)

  /** 20 MiB, inclusive. */
  const MaxFileSize := 20 * 1024 * 1024
  const MaxFiles := 10

  /** A message may be sent when there is text other than white space or at
      least one file, and the composer is not disabled. */
  predicate CanSend(input: string, fileCount: nat, disabled: bool) {
    (Trim(input) != "" || fileCount > 0) && !disabled
  }

  /** The `disabled` attribute of the send button. */
  predicate SendButtonDisabled(input: string, fileCount: nat, disabled: bool) {
    (Trim(input) == "" && fileCount == 0) || disabled
  }

  predicate Fits(f: File) {
    f.size <= MaxFileSize
  }

  /** The selected files that are kept, in order. */
  function Accepted(files: seq<File>): (r: seq<File>)
    ensures |r| <= |files|
    ensures forall k :: 0 <= k < |r| ==> Fits(r[k])
  {
    if files == [] then []
    else (if Fits(files[0]) then [files[0]] else []) + Accepted(files[1..])
  }

  /** The selected files that are refused with a toast, in order. */
  function Rejected(files: seq<File>): (r: seq<File>)
    ensures |r| <= |files|
    ensures forall k :: 0 <= k < |r| ==> !Fits(r[k])
  {
    if files == [] then []
    else (if Fits(files[0]) then [] else [files[0]]) + Rejected(files[1..])
  }

  /** `[...prev, ...valid].slice(0, 10)` */
  function Capped(prev: seq<File>, valid: seq<File>): seq<File> {
    var all := prev + valid;
    if |all| <= MaxFiles then all else all[..MaxFiles]
  }

  /** `files.filter((_, i) => i !== index)`, with the positions of `files`
      counted from `from`. */
  function KeepOthers(files: seq<File>, index: int, from: int): seq<File> {
    if files == [] then []
    else (if from != index then [files[0]] else []) + KeepOthers(files[1..], index, from + 1)
  }

  function RemoveAt(files: seq<File>, index: int): seq<File> {
    KeepOthers(files, index, 0)
  }

  class ChatInput {
    var input: string
    var files: seq<File>
    /** The messages handed to `onSend`, in order. */
    var sent: seq<Outgoing>
    /** The files a "File too large" toast was shown for, in order. */
    var tooLarge: seq<File>

    constructor()
      ensures input == "" && files == [] && sent == [] && tooLarge == []
    {
      input := "";
      files := [];
      sent := [];
      tooLarge := [];
    }

    /** The text area's `onChange`. */
    method SetInput(text: string)
      modifies this`input
      ensures input == text
    {
      input := text;
    }

    /** `handleSend`: when the guard passes, the trimmed text and the files
        go to `onSend` and the composer is cleared; otherwise nothing
        happens. */
    method HandleSend(disabled: bool)
      modifies this`input, this`files, this`sent
      ensures CanSend(old(input), |old(files)|, disabled) ==>
        && sent == old(sent) + [Outgoing(Trim(old(input)), old(files))]
        && input == "" && files == []
      ensures !CanSend(old(input), |old(files)|, disabled) ==>
        sent == old(sent) && input == old(input) && files == old(files)
    {
      if (Trim(input) != "" || |files| > 0) && !disabled {
        sent := sent + [Outgoing(Trim(input), files)];
        input := "";
        files := [];
      }
    }

    /** `handleFileSelect`: every selected file over the limit gets a
        toast; the others are appended and the list is cut to ten. */
    method HandleFileSelect(selected: seq<File>)
      modifies this`files, this`tooLarge
      ensures files == Capped(old(files), Accepted(selected))
      ensures tooLarge == old(tooLarge) + Rejected(selected)
    {
      var validFiles: seq<File> := [];
      for k := 0 to |selected|
        invariant validFiles == Accepted(selected[..k])
        invariant tooLarge == old(tooLarge) + Rejected(selected[..k])
        invariant files == old(files)
      {
        var file := selected[k];
        FilterSnoc(selected[..k], file);
        TakeSnoc(selected, k);
        var isValid := file.size <= MaxFileSize;
        if !isValid {
          AppendAssoc(old(tooLarge), Rejected(selected[..k]), [file]);
          tooLarge := tooLarge + [file];
        }
        if isValid {
          validFiles := validFiles + [file];
        }
      }
      assert selected[..|selected|] == selected;
      files := Capped(files, validFiles);
    }

    /** `removeFile`. */
    method RemoveFile(index: int)
      modifies this`files
      ensures files == RemoveAt(old(files), index)
    {
      files := RemoveAt(files, index);
    }

    /** `handleKeyDown`: Enter without Shift is taken from the text area
        (its default, a new line, is prevented) and sends; any other key
        is left alone. */
    method HandleKeyDown(key: string, shift: bool, disabled: bool) returns (prevented: bool)
      modifies this`input, this`files, this`sent
      ensures prevented == (key == "Enter" && !shift)
      ensures prevented && CanSend(old(input), |old(files)|, disabled) ==>
        && sent == old(sent) + [Outgoing(Trim(old(input)), old(files))]
        && input == "" && files == []
      ensures !prevented || !CanSend(old(input), |old(files)|, disabled) ==>
        sent == old(sent) && input == old(input) && files == old(files)
    {
      prevented := false;
      if key == "Enter" && !shift {
        prevented := true;
        HandleSend(disabled);
      }
    }
  }

  // ---------------------------------------------------------------------
  // Lemmas

  /** The send button is disabled exactly when a click would not send. */
  lemma ButtonMatchesGuard(input: string, fileCount: nat, disabled: bool)
    ensures SendButtonDisabled(input, fileCount, disabled) <==> !CanSend(input, fileCount, disabled)
  {
  }

  /** Both filters work file by file. */
  lemma {:induction false} FilterAppend(a: seq<File>, b: seq<File>)
    ensures Accepted(a + b) == Accepted(a) + Accepted(b)
    ensures Rejected(a + b) == Rejected(a) + Rejected(b)
  {
    if a != [] {
      assert (a + b)[1..] == a[1..] + b;
      FilterAppend(a[1..], b);
    } else {
      assert a + b == b;
    }
  }

  /** One more selected file is kept or refused after the others. */
  lemma FilterSnoc(files: seq<File>, f: File)
    ensures Accepted(files + [f]) == Accepted(files) + (if Fits(f) then [f] else [])
    ensures Rejected(files + [f]) == Rejected(files) + (if Fits(f) then [] else [f])
  {
    FilterAppend(files, [f]);
    assert [f][1..] == [];
  }

  /** Every selected file is either kept or refused, never both and never
      neither. */
  lemma {:induction false} FilterPartition(files: seq<File>)
    ensures multiset(Accepted(files)) + multiset(Rejected(files)) == multiset(files)
  {
    if files != [] {
      var h, t := files[0], files[1..];
      FilterPartition(t);
      assert files == [h] + t;
      if Fits(h) {
        assert Accepted(files) == [h] + Accepted(t);
        assert Rejected(files) == Rejected(t);
      } else {
        assert Accepted(files) == Accepted(t);
        assert Rejected(files) == [h] + Rejected(t);
      }
    }
  }

  /** A file is kept exactly when its size is at most 20 MiB (so a file of
      exactly 20 MiB is kept), and refused exactly when it is larger. */
  lemma FilterKeepsIffFits(files: seq<File>, f: File)
    ensures f in Accepted(files) <==> f in files && Fits(f)
    ensures f in Rejected(files) <==> f in files && !Fits(f)
  {
    FilterPartition(files);
    assert f in files <==> f in multiset(files);
  }

  /** The new list never holds more than ten files, starts with the files
      already attached (as many as fit), and drops nothing while the total
      is at most ten. */
  lemma CappedShape(prev: seq<File>, valid: seq<File>)
    ensures var r := Capped(prev, valid);
      && |r| == (if |prev| + |valid| <= MaxFiles then |prev| + |valid| else MaxFiles)
      && r == (prev + valid)[..|r|]
      && (|prev| <= MaxFiles ==> r[..|prev|] == prev)
      && (|prev| + |valid| <= MaxFiles ==> r == prev + valid)
  {
    var all := prev + valid;
    assert all[..|all|] == all;
    if |prev| <= MaxFiles {
      assert all[..|prev|] == prev;
    }
  }

  /** The position filter of `removeFile` deletes exactly the element at
      that position, keeping the others in order; a position outside the
      list deletes nothing. */
  lemma {:induction false} KeepOthersSlices(files: seq<File>, index: int, from: int)
    ensures KeepOthers(files, index, from)
         == if from <= index < from + |files| then files[..index - from] + files[index - from + 1..] else files
    decreases |files|
  {
    if files != [] {
      KeepOthersSlices(files[1..], index, from + 1);
      if from < index < from + |files| {
        var i := index - from;
        assert files[..i] == [files[0]] + files[1..][..i - 1];
        assert files[1..][i..] == files[i + 1..];
      } else if index != from {
        assert files == [files[0]] + files[1..];
      }
    }
  }

  lemma RemoveAtSlices(files: seq<File>, index: int)
    ensures 0 <= index < |files| ==> RemoveAt(files, index) == files[..index] + files[index + 1..]
    ensures 0 <= index < |files| ==> |RemoveAt(files, index)| == |files| - 1
    ensures !(0 <= index < |files|) ==> RemoveAt(files, index) == files
  {
    KeepOthersSlices(files, index, 0);
  }
}
