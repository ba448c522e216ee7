/**
 * The profile page: the values it derives from the signed-in user and its
 * own form state (avatar initial, first/last name, name initials, profile
 * completion, dirty flag, password match), and the save handler that
 * commits the username and photo and picks the confirmation message.
 */
module Settings {
  import opened Wrappers
  import opened Text

  /** `(displayName || email || "U").trim().charAt(0).toUpperCase()`. */
  function AuthorInitial(displayName: Option<string>, email: Option<string>): (r: string)
    ensures |r| <= 1
    ensures Truthy(displayName) ==> r == InitialOf(displayName.value)
    ensures !Truthy(displayName) && Truthy(email) ==> r == InitialOf(email.value)
    ensures !Truthy(displayName) && !Truthy(email) ==> r == "U"
  {
    InitialOf(OrElse(displayName, OrElse(email, "U")))
  }

  /** First and last name; an absent part is "" (both read only for their value and truthiness). */
  datatype NameParts = NameParts(first: string, last: string)

  /** `(displayName ?? "").trim().split(/\s+/, 2)`. */
  function SplitName(displayName: Option<string>): (n: NameParts)
    ensures n.first == "" || IsWord(n.first)
    ensures n.last == "" || IsWord(n.last)
    ensures n.last != "" ==> n.first != ""
  {
    var ws := Words(Trim(displayName.GetOr("")));
    NameParts(if |ws| >= 1 then ws[0] else "", if |ws| >= 2 then ws[1] else "")
  }

  /**
   * A display name made of words separated by any runs of whitespace, with
   * any whitespace around it, splits into its first two words.
   */
  lemma SplitNameOfJoin(lead: string, ws: seq<string>, gaps: seq<string>, trail: string)
    requires IsBlank(lead) && IsBlank(trail)
    requires |ws| <= |gaps| + 1
    requires forall i :: 0 <= i < |ws| ==> IsWord(ws[i])
    requires forall i :: 0 <= i < |gaps| ==> IsGap(gaps[i])
    ensures var n := SplitName(Some(lead + JoinWith(ws, gaps) + trail));
            && n.first == (if |ws| >= 1 then ws[0] else "")
            && n.last == (if |ws| >= 2 then ws[1] else "")
  {
    var j := JoinWith(ws, gaps);
    var name := lead + j + trail;
    JoinWithTrimmed(ws, gaps);
    TrimOfPadded(lead, j, trail);
    WordsOfJoin(ws, gaps);
    assert Some(name).GetOr("") == name;
    var n := SplitName(Some(name));
    assert n == NameParts(if |ws| >= 1 then ws[0] else "", if |ws| >= 2 then ws[1] else "");
  }

  /** `.slice(0, 2).map(part => part.charAt(0).toUpperCase()).join("")`. */
  function WordInitials(ws: seq<string>): (r: string)
    ensures |r| <= |ws| && |r| <= 2
    ensures (forall i :: 0 <= i < |ws| ==> ws[i] != "") ==> |r| == (if |ws| < 2 then |ws| else 2)
    ensures (forall i :: 0 <= i < |ws| ==> ws[i] != "") ==>
              forall i :: 0 <= i < |r| ==> r[i] == UpperChar(ws[i][0])
  {
    if ws == [] then ""
    else if |ws| == 1 then ToUpper(CharAt0(ws[0]))
    else ToUpper(CharAt0(ws[0])) + ToUpper(CharAt0(ws[1]))
  }

  /**
   * `nameInitials`: the first characters of first and last name when both
   * are present (not upper-cased), otherwise the upper-cased initials of at
   * most two words of the display name, otherwise the author initial.
   */
  function NameInitials(displayName: Option<string>, email: Option<string>): (r: string)
    ensures |r| <= 2
    ensures var n := SplitName(displayName);
            n.first != "" && n.last != "" ==> r == [n.first[0], n.last[0]]
  {
    var n := SplitName(displayName);
    var fromWords :=
      if displayName.None? then ""
      else
        var ws := Words(Trim(displayName.value));
        WordInitials(if |ws| > 2 then ws[..2] else ws);
    if n.first != "" && n.last != "" then [n.first[0], n.last[0]]
    else if fromWords != "" then fromWords
    else AuthorInitial(displayName, email)
  }

  /**
   * Outside the two-name case there is at most one word, so the word-initial
   * form is one upper-cased letter, and a name without words falls back to
   * the author initial.
   */
  lemma NameInitialsForms(displayName: Option<string>, email: Option<string>)
    ensures var n := SplitName(displayName);
            var r := NameInitials(displayName, email);
            && (n.first != "" && n.last == "" ==> r == [UpperChar(n.first[0])])
            && (n.first == "" ==> r == AuthorInitial(displayName, email))
  {
  }

  const TotalProfileFields: nat := 5

  /** How many of first name, last name, saved username, email and photo are filled in. */
  function FilledProfileFields(n: NameParts, savedUsername: string, email: Option<string>,
                               profileImage: Option<string>): (k: nat)
    ensures k <= TotalProfileFields
    ensures k == TotalProfileFields <==>
      n.first != "" && n.last != "" && !IsBlank(savedUsername) && Truthy(email) && Truthy(profileImage)
  {
    (if n.first != "" then 1 else 0)
      + (if n.last != "" then 1 else 0)
      + (if Trim(savedUsername) != "" then 1 else 0)
      + (if Truthy(email) then 1 else 0)
      + (if Truthy(profileImage) then 1 else 0)
  }

  /** `Math.round(filled / total * 100)`, rounding halves up. */
  function ProfileCompletion(filled: nat): (percent: nat)
    requires filled <= TotalProfileFields
    ensures percent == 20 * filled && percent <= 100
  {
    (2 * filled * 100 + TotalProfileFields) / (2 * TotalProfileFields)
  }

  /** `isDirty`: the trimmed username or the photo differs from what was saved. */
  function IsDirty(username: string, savedUsername: string,
                   previewProfileImage: Option<string>, profileImage: Option<string>): (dirty: bool)
    ensures username == savedUsername && previewProfileImage == profileImage ==> !dirty
    ensures previewProfileImage != profileImage ==> dirty
    ensures Trim(username) == Trim(savedUsername) ==> (dirty <==> previewProfileImage != profileImage)
  {
    Trim(username) != Trim(savedUsername) || previewProfileImage != profileImage
  }

  /** Saving the trimmed username and the previewed photo leaves nothing dirty. */
  lemma SavedIsClean(username: string, image: Option<string>)
    ensures !IsDirty(username, Trim(username), image, image)
  {
    TrimIdempotent(username);
  }

  /** `passwordsMatch`: a non-empty new password typed the same way twice. */
  function PasswordsMatch(newPassword: string, confirmNewPassword: string): (r: bool)
    ensures r ==> newPassword != "" && confirmNewPassword != ""
    ensures newPassword != confirmNewPassword ==> !r
    ensures newPassword != "" && newPassword == confirmNewPassword ==> r
  {
    |newPassword| > 0 && newPassword == confirmNewPassword
  }

  const UsernameField: string := "Username"
  const PhotoField: string := "Profile photo"
  const SavedSuffix: string := " changes have been saved successfully"
  /** "Profile changes have been saved successfully". */
  const GenericSaveMessage: string := "Profile" + SavedSuffix

  /** The fields `handleSave` reports as changed, in the order it checks them. */
  function ChangedFields(usernameChanged: bool, photoChanged: bool): (fields: seq<string>)
    ensures |fields| == (if usernameChanged then 1 else 0) + (if photoChanged then 1 else 0)
    ensures UsernameField in fields <==> usernameChanged
    ensures PhotoField in fields <==> photoChanged
    ensures |fields| == 2 ==> fields == [UsernameField, PhotoField]
  {
    (if usernameChanged then [UsernameField] else []) + (if photoChanged then [PhotoField] else [])
  }

  /** The toast text after a save: per-field for one change, generic for several, unchanged for none. */
  function SaveToastMessage(fields: seq<string>, current: string): (message: string)
    ensures fields == [] ==> message == current
    ensures |fields| == 1 ==> message == fields[0] + SavedSuffix
    ensures |fields| > 1 ==> message == "Profile" + SavedSuffix
  {
    if |fields| == 1 then fields[0] + SavedSuffix
    else if |fields| > 1 then GenericSaveMessage
    else current
  }

  /** Which message each combination of changes produces. */
  lemma SaveToastMessageCases(usernameChanged: bool, photoChanged: bool, current: string)
    ensures var m := SaveToastMessage(ChangedFields(usernameChanged, photoChanged), current);
            && (usernameChanged && photoChanged ==> m == GenericSaveMessage)
            && (usernameChanged && !photoChanged ==> m == UsernameField + SavedSuffix)
            && (!usernameChanged && photoChanged ==> m == PhotoField + SavedSuffix)
            && (!usernameChanged && !photoChanged ==> m == current)
  {
  }

  /** The page reports a change exactly when it is dirty. */
  lemma ChangedFieldsIffDirty(username: string, savedUsername: string,
                              previewProfileImage: Option<string>, profileImage: Option<string>)
    ensures ChangedFields(Trim(username) != Trim(savedUsername), previewProfileImage != profileImage) != []
        <==> IsDirty(username, savedUsername, previewProfileImage, profileImage)
  {
  }

  /** The page's own form state for the username and the profile photo. */
  class ProfileSettings {
    var username: string
    var savedUsername: string
    var profileImage: Option<string>
    var previewProfileImage: Option<string>
    var saveToastMessage: string
    var showSaveToast: bool
    var isSaveConfirmOpen: bool

    /** A stored or previewed photo is never the empty string: only truthy reads are kept. */
    ghost predicate Valid()
      reads this`profileImage, this`previewProfileImage
    {
      profileImage != Some("") && previewProfileImage != Some("")
    }

    predicate Dirty()
      reads this`username, this`savedUsername, this`profileImage, this`previewProfileImage
    {
      IsDirty(username, savedUsername, previewProfileImage, profileImage)
    }

    /** The page after its mount effect has read the locally stored photo and username. */
    constructor (storedImage: Option<string>, storedUsername: Option<string>)
      ensures Valid() && !Dirty()
      ensures profileImage == previewProfileImage == (if Truthy(storedImage) then storedImage else None)
      ensures username == savedUsername == storedUsername.GetOr("")
      ensures saveToastMessage == GenericSaveMessage
      ensures !showSaveToast && !isSaveConfirmOpen
    {
      profileImage, previewProfileImage := None, None;
      username, savedUsername := "", "";
      saveToastMessage := GenericSaveMessage;
      showSaveToast, isSaveConfirmOpen := false, false;
      if Truthy(storedImage) {
        profileImage := storedImage;
        previewProfileImage := storedImage;
      }
      username := storedUsername.GetOr("");
      savedUsername := storedUsername.GetOr("");
    }

    /** Typing into the username field. */
    method EditUsername(value: string)
      modifies this`username
      ensures username == value
    {
      username := value;
    }

    /** A finished file read: only a non-empty data URL becomes the preview. */
    method PreviewProfileImage(result: Option<string>)
      requires Valid()
      modifies this`previewProfileImage
      ensures Valid()
      ensures previewProfileImage == if Truthy(result) then result else old(previewProfileImage)
    {
      if Truthy(result) {
        previewProfileImage := result;
      }
    }

    /** The "remove photo" button. */
    method RemoveProfileImage()
      requires Valid()
      modifies this`previewProfileImage
      ensures Valid() && previewProfileImage == None
    {
      previewProfileImage := None;
    }

    /** Submitting the form opens the confirmation only when something changed. */
    method SubmitProfileForm()
      modifies this`isSaveConfirmOpen
      ensures isSaveConfirmOpen == (old(isSaveConfirmOpen) || Dirty())
    {
      if !Dirty() {
        return;
      }
      isSaveConfirmOpen := true;
    }

    /**
     * `handleSave`: commit the trimmed username and the previewed photo and
     * choose the toast text from the list of changed fields. Afterwards the
     * page is no longer dirty.
     */
    method HandleSave()
      requires Valid()
      modifies this`savedUsername, this`profileImage, this`saveToastMessage, this`showSaveToast
      ensures Valid() && !Dirty()
      ensures savedUsername == Trim(username) && profileImage == previewProfileImage
      ensures saveToastMessage == SaveToastMessage(
        ChangedFields(Trim(username) != Trim(old(savedUsername)), previewProfileImage != old(profileImage)),
        old(saveToastMessage))
      ensures showSaveToast
    {
      var current, saved, preview, stored := username, savedUsername, previewProfileImage, profileImage;
      var trimmedUsername := Trim(current);
      var changedFields: seq<string> := [];
      if trimmedUsername != Trim(saved) {
        changedFields := changedFields + [UsernameField];
      }
      if preview != stored {
        changedFields := changedFields + [PhotoField];
      }
      SavedIsClean(current, preview);

      savedUsername := trimmedUsername;
      if Truthy(preview) {
        profileImage := preview;
      } else {
        profileImage := None;
      }

      if |changedFields| == 1 {
        saveToastMessage := changedFields[0] + SavedSuffix;
      } else if |changedFields| > 1 {
        saveToastMessage := GenericSaveMessage;
      }
      showSaveToast := true;
    }

    /** Confirming the save dialog: save, then close the dialog. */
    method ConfirmSave()
      requires Valid()
      modifies this`savedUsername, this`profileImage, this`saveToastMessage, this`showSaveToast,
               this`isSaveConfirmOpen
      ensures Valid() && !Dirty() && !isSaveConfirmOpen && showSaveToast
      ensures savedUsername == Trim(username) && profileImage == previewProfileImage
      ensures saveToastMessage == SaveToastMessage(
        ChangedFields(Trim(username) != Trim(old(savedUsername)), previewProfileImage != old(profileImage)),
        old(saveToastMessage))
    {
      HandleSave();
      isSaveConfirmOpen := false;
    }
  }
}
