/** The input schemas of the create forms and the login form. Each schema is
    modelled by the list of issues it reports, in the order the schema checks
    its fields and, within a field, its rules; an input is accepted when that
    list is empty. Lengths count characters. */
module Validators {
  import opened Common
  import opened Entities

  const NameRequired := "Name is required"
  const NameTooLong := "Name must be 50 characters or less"
  const IconRequired := "Icon is required"
  const IconNotEmoji := "Icon must be an emoji"
  const SpaceIdRequired := "Space ID is required"
  const GroupIdRequired := "Group ID is required"
  const TitleRequired := "Title is required"
  const TitleTooLong := "Title must be 100 characters or less"
  const UrlRequired := "URL is required"
  const DescriptionTooLong := "Description must be 500 characters or less"
  const UsernameTooShort := "Username must be at least 2 characters"
  const UsernameTooLong := "Username must be 30 characters or less"
  const UsernameBadChars := "Username can only contain letters, numbers, underscores, and hyphens"

  /** `z.string().min(lo, tooShort).max(hi, tooLong)` on `s`. */
  function LengthIssues(s: string, lo: nat, tooShort: string, hi: nat, tooLong: string): seq<string> {
    (if |s| < lo then [tooShort] else []) + (if |s| > hi then [tooLong] else [])
  }

  function SpaceInputIssues(input: CreateSpaceInput): seq<string> {
    LengthIssues(input.name, 1, NameRequired, 50, NameTooLong)
    + LengthIssues(input.icon, 1, IconRequired, 4, IconNotEmoji)
  }

  /** `spaceInputSchema.safeParse(input).success`; `color` is optional and unchecked. */
  predicate SpaceInputValid(input: CreateSpaceInput) {
    SpaceInputIssues(input) == []
  }

  lemma SpaceInputValidIff(input: CreateSpaceInput)
    ensures SpaceInputValid(input) <==> 1 <= |input.name| <= 50 && 1 <= |input.icon| <= 4
  {
  }

  function GroupInputIssues(input: CreateGroupInput): seq<string> {
    (if |input.spaceId| < 1 then [SpaceIdRequired] else [])
    + LengthIssues(input.name, 1, NameRequired, 50, NameTooLong)
  }

  /** `groupInputSchema.safeParse(input).success`; `icon` is optional and unchecked. */
  predicate GroupInputValid(input: CreateGroupInput) {
    GroupInputIssues(input) == []
  }

  lemma GroupInputValidIff(input: CreateGroupInput)
    ensures GroupInputValid(input) <==> |input.spaceId| >= 1 && 1 <= |input.name| <= 50
  {
  }

  /** The bookmark schema without its URL-syntax refinement. */
  function BookmarkInputIssues(input: CreateBookmarkInput): seq<string> {
    (if |input.groupId| < 1 then [GroupIdRequired] else [])
    + LengthIssues(input.title, 1, TitleRequired, 100, TitleTooLong)
    + (if |input.url| < 1 then [UrlRequired] else [])
    + (if input.description.Some? && |input.description.value| > 500 then [DescriptionTooLong] else [])
  }

  predicate BookmarkInputValid(input: CreateBookmarkInput) {
    BookmarkInputIssues(input) == []
  }

  lemma BookmarkInputValidIff(input: CreateBookmarkInput)
    ensures BookmarkInputValid(input) <==>
      && |input.groupId| >= 1
      && 1 <= |input.title| <= 100
      && |input.url| >= 1
      && (input.description.None? || |input.description.value| <= 500)
  {
  }

  /** `[a-zA-Z0-9_-]` */
  predicate UsernameChar(c: char) {
    ('a' <= c <= 'z') || ('A' <= c <= 'Z') || ('0' <= c <= '9') || c == '_' || c == '-'
  }

  /** `/^[a-zA-Z0-9_-]+$/.test(s)` */
  predicate MatchesUsernamePattern(s: string) {
    |s| >= 1 && forall i :: 0 <= i < |s| ==> UsernameChar(s[i])
  }

  function UsernameIssues(s: string): seq<string> {
    LengthIssues(s, 2, UsernameTooShort, 30, UsernameTooLong)
    + (if MatchesUsernamePattern(s) then [] else [UsernameBadChars])
  }

  predicate UsernameValid(s: string) {
    UsernameIssues(s) == []
  }

  lemma UsernameValidIff(s: string)
    ensures UsernameValid(s) <==> 2 <= |s| <= 30 && forall i :: 0 <= i < |s| ==> UsernameChar(s[i])
  {
  }

  /** An empty username is reported twice: too short, and not matching the pattern. */
  lemma EmptyUsernameHasTwoIssues()
    ensures UsernameIssues("") == [UsernameTooShort, UsernameBadChars]
  {
  }
}
