/** What a page shows the user after it runs (`st.success`, `st.error`,
    `st.info`, `st.warning`), and an exception that escapes the script, which
    Streamlit shows as a traceback. */
module Notices {
  datatype Notice =
    | Success(text: string)
    | Error(text: string)
    | Info(text: string)
    | Warning(text: string)
    | Uncaught
}
