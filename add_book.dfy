/** The add-book form: genre choice, required-field check, and the reset after a successful upload. */
module AddBookPage {
  import opened Wrappers
  import opened Js

  const OtherGenre := "Other"

  /** `genre === "Other" ? customGenre : genre`. */
  function FinalGenre(genre: string, customGenre: string): (r: string)
    ensures genre == OtherGenre ==> r == customGenre
    ensures genre != OtherGenre ==> r == genre
  {
    if genre == OtherGenre then customGenre else genre
  }

  /** The multipart body of `POST /api/books/add`; the image part is present only when a file was chosen. */
  datatype NewBook = NewBook(
    userId: Option<string>,
    title: string,
    author: string,
    genre: string,
    description: string,
    image: Option<File>)

  datatype SubmitError = MissingRequiredField

  /**
   * The check `handleSubmit` makes before sending: title, author and the
   * final genre must be non-empty; the description may be empty.
   */
  function BuildSubmission(userId: Option<string>, title: string, author: string, genre: string,
                           customGenre: string, description: string, image: Option<File>): (r: Result<NewBook, SubmitError>)
    ensures r.Ok? <==> title != "" && author != "" && FinalGenre(genre, customGenre) != ""
    ensures r.Ok? ==> r.value == NewBook(userId, title, author, FinalGenre(genre, customGenre), description, image)
  {
    var finalGenre := FinalGenre(genre, customGenre);
    if title == "" || author == "" || finalGenre == "" then Err(MissingRequiredField)
    else Ok(NewBook(userId, title, author, finalGenre, description, image))
  }

  /** Picking "Other" with an empty custom genre is refused even when everything else is filled in. */
  lemma OtherNeedsCustomGenre(userId: Option<string>, title: string, author: string, description: string, image: Option<File>)
    ensures BuildSubmission(userId, title, author, OtherGenre, "", description, image).Err?
  {
  }

  class AddBook {
    const userId: Option<string>
    var title: string
    var author: string
    var genre: string
    var customGenre: string
    var description: string
    var image: Option<File>

    constructor (userId: Option<string>)
      ensures this.userId == userId
      ensures title == "" && author == "" && genre == "" && customGenre == "" && description == "" && image == None
    {
      this.userId := userId;
      title, author, genre, customGenre, description := "", "", "", "", "";
      image := None;
    }

    /**
     * `handleSubmit` with the upload's outcome given: an incomplete form
     * sends nothing and keeps its fields; otherwise the book is sent, a
     * success clears the form and a failure keeps it.
     */
    method HandleSubmit(ok: bool) returns (sent: Option<NewBook>)
      modifies this
      ensures var r := BuildSubmission(userId, old(title), old(author), old(genre), old(customGenre),
                                       old(description), old(image));
        sent == (if r.Ok? then Some(r.value) else None)
      ensures sent.Some? && ok ==>
        title == "" && author == "" && genre == "" && customGenre == "" && description == "" && image == None
      ensures sent.None? || !ok ==>
        && title == old(title) && author == old(author) && genre == old(genre)
        && customGenre == old(customGenre) && description == old(description) && image == old(image)
    {
      var r := BuildSubmission(userId, title, author, genre, customGenre, description, image);
      if r.Err? {
        return None;
      }
      sent := Some(r.value);
      if ok {
        title := "";
        author := "";
        genre := "";
        customGenre := "";
        description := "";
        image := None;
      }
    }
  }
}
