/** The application's last middleware: every `next(error)` ends here. */
module ErrorHandling {
  import opened Common
  import opened Http

  const DuplicateEntry: string := "Un véhicule avec ce numéro d'immatriculation existe déjà"
  const ResourceNotFound: string := "Ressource non trouvée"
  const InternalError: string := "Une erreur interne est survenue"

  /** `errorHandler`: a status and a fixed message chosen by `err.code` alone. */
  function ErrorHandler(err: Fault): (r: Response)
    ensures r.status == 409 <==> err.code == Some("ER_DUP_ENTRY")
    ensures r.status == 404 <==> err.code == Some("ER_NO_REFERENCED_ROW")
    ensures r.status == 409 || r.status == 404 || r.status == 500
    ensures r.payload == Message(if r.status == 409 then DuplicateEntry
                                 else if r.status == 404 then ResourceNotFound
                                 else InternalError)
  {
    if err.code == Some("ER_DUP_ENTRY") then Response(409, Message(DuplicateEntry))
    else if err.code == Some("ER_NO_REFERENCED_ROW") then Response(404, Message(ResourceNotFound))
    else Response(500, Message(InternalError))
  }

  /** Two errors with the same code get the same response: no message or other detail reaches the body. */
  lemma OnlyCodeMatters(a: Fault, b: Fault)
    requires a.code == b.code
    ensures ErrorHandler(a) == ErrorHandler(b)
  {
  }

  /** An error without a code, such as a plain `Error`, is a 500. */
  lemma UncodedIsInternal(err: Fault)
    requires err.code.None?
    ensures ErrorHandler(err) == Response(500, Message(InternalError))
  {
  }
}
