/** The text a status element ends up showing: `infoMsg` writes a plain span and
    `errorMsg` one styled as an error. Each element holds one span at a time. */
module Status {

  datatype Message = InfoMsg(text: string) | ErrorMsg(text: string)
}
