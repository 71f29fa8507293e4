/**
 * The attachment list of `TicketForm`: files are appended as they are
 * picked, removed by name, and cleared by the reset that follows a submit.
 */
module TicketForm {
  import opened Wrappers
  import opened Browser

  /** `files.filter(f => f.name !== name)`. */
  function RemoveNamed(files: seq<File>, name: string): (r: seq<File>)
    ensures |r| <= |files|
  {
    if files == [] then []
    else
      RemoveNamed(files[..|files| - 1], name)
      + (if files[|files| - 1].name != name then [files[|files| - 1]] else [])
  }

  /** Every file with another name stays; every file with that name, duplicates included, goes. */
  lemma {:induction false} RemoveNamedMembers(files: seq<File>, name: string, f: File)
    ensures f in RemoveNamed(files, name) <==> f in files && f.name != name
    decreases |files|
  {
    if files != [] {
      RemoveNamedMembers(files[..|files| - 1], name, f);
      assert files == files[..|files| - 1] + [files[|files| - 1]];
    }
  }

  /** The kept files keep their relative order: removal distributes over concatenation. */
  lemma {:induction false} RemoveNamedAppend(a: seq<File>, b: seq<File>, name: string)
    ensures RemoveNamed(a + b, name) == RemoveNamed(a, name) + RemoveNamed(b, name)
    decreases |b|
  {
    if b == [] {
      assert a + b == a;
    } else {
      assert (a + b)[..|a + b| - 1] == a + b[..|b| - 1];
      RemoveNamedAppend(a, b[..|b| - 1], name);
    }
  }

  /** Removing a name no file carries leaves the list as it was. */
  lemma {:induction false} RemoveNamedAbsent(files: seq<File>, name: string)
    requires forall i :: 0 <= i < |files| ==> files[i].name != name
    ensures RemoveNamed(files, name) == files
    decreases |files|
  {
    if files != [] {
      var init := files[..|files| - 1];
      assert forall i :: 0 <= i < |init| ==> init[i] == files[i];
      RemoveNamedAbsent(init, name);
      assert RemoveNamed(files, name) == init + [files[|files| - 1]];
    }
  }

  class Form {
    var files: seq<File>
    var isSubmitted: bool

    constructor ()
      ensures files == [] && !isSubmitted
    {
      files := [];
      isSubmitted := false;
    }

    /** `handleFileChange`: the picked files after the existing ones; nothing when the list is `null`. */
    method HandleFileChange(picked: Option<seq<File>>)
      modifies this
      ensures files == old(files) + (if picked.Some? then picked.value else [])
      ensures isSubmitted == old(isSubmitted)
    {
      if picked.Some? {
        files := files + picked.value;
      }
    }

    /** `removeFile`. */
    method RemoveFile(name: string)
      modifies this
      ensures files == RemoveNamed(old(files), name)
      ensures isSubmitted == old(isSubmitted)
    {
      files := RemoveNamed(files, name);
    }

    /** `handleSubmit`: shows the confirmation; the delayed reset is `ResetAfterSubmit`. */
    method HandleSubmit()
      modifies this
      ensures isSubmitted && files == old(files)
    {
      isSubmitted := true;
    }

    /** The reset `handleSubmit` schedules: confirmation hidden and attachments cleared. */
    method ResetAfterSubmit()
      modifies this
      ensures !isSubmitted && files == []
    {
      isSubmitted := false;
      files := [];
    }
  }
}
